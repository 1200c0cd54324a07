/**
 One incremental indexing run: journal replay, the file loop, and pruning.
 */
module Indexing {
  import opened Options
  import opened IndexProtocol
  import opened IndexStores

  const DEFAULT_BATCH_SIZE := 32
  const DELETE_ATTEMPTS := 3

  /** What the file system answers when the run reaches a path: `content` when the file is
      hashed, and `chunked` when it is read again for chunking, None if it is gone then. */
  datatype FileView = Unreadable(err: Err) | Readable(mtime: int, size: int, content: Content, chunked: Option<Content>)

  /** The file is gone when it is hashed or when it is chunked. */
  predicate Gone(view: FileView) { view == Unreadable(NotExist) || (view.Readable? && view.chunked.None?) }

  /** The file is chunked as it was hashed. */
  predicate Steady(view: FileView) { view.Readable? ==> view.chunked == Some(view.content) }

  predicate AllSteady(files: seq<Path>, view: map<Path, FileView>)
    requires forall p | p in files :: p in view
  {
    forall p | p in files :: Steady(view[p])
  }

  /** How a best-effort step went whose failure the code only logs. */
  datatype Attempt = NotNeeded | Worked | DidNotWork

  /** What became of one file. `told`: the store reported all the ids it had stored. */
  datatype Fate =
    | Untouched
    | TakenBack(told: bool, undo: Attempt)
    | Dropped
    | Published(journaled: Attempt)

  /** How a turn of the file loop ended. */
  datatype FileEnd = Indexed(fate: Fate) | Purged | Failed(fate: Fate) | Unpurged {
    predicate Bad() { Failed? || Unpurged? }
  }

  function Failures(ends: seq<FileEnd>): nat {
    if ends == [] then 0 else Failures(ends[..|ends| - 1]) + Fault(ends[|ends| - 1].Bad())
  }

  // --- specification ---------------------------------------------------------

  ghost function RowAt(rows: map<Path, Row>, p: Path): Option<Row> {
    if p in rows then Some(rows[p]) else None
  }

  /** The row a build from scratch writes for a path. */
  ghost function Expected(p: Path, view: FileView): Option<Row> {
    if view.Readable? && view.chunked.Some? && view.chunked.value.chunks != [] then
      var c := view.chunked.value;
      Some(Row(view.mtime, view.size, |c.chunks|, IdsOf(p, c), Some(view.content)))
    else None
  }

  /** The file looks as it did when its row was written. */
  predicate Unchanged(row: Row, view: FileView) {
    view.Readable? && row.mtime == view.mtime && row.size == view.size && row.hash == Some(view.content)
  }

  ghost predicate ExactAt(rows: map<Path, Row>, vecs: set<DocId>, p: Path) {
    forall d: DocId | d.path == p :: d in vecs <==> d in RowIds(rows, p)
  }

  /** The store holds the union of all row ids and nothing else. */
  ghost predicate Exact(rows: map<Path, Row>, vecs: set<DocId>) {
    forall d: DocId :: d in vecs <==> d in RowIds(rows, d.path)
  }

  ghost predicate StoredAt(rows: map<Path, Row>, vecs: set<DocId>, p: Path) { RowIds(rows, p) <= vecs }

  /** Every row has its vectors. */
  ghost predicate AllStored(rows: map<Path, Row>, vecs: set<DocId>) {
    forall d: DocId :: d in RowIds(rows, d.path) ==> d in vecs
  }

  /** What is stored for `p` is what its row records, and besides that exactly what was
      stored before without being in a row. */
  ghost predicate CarriedAt(p: Path, rows0: map<Path, Row>, vecs0: set<DocId>, rows: map<Path, Row>, vecs: set<DocId>) {
    forall d: DocId | d.path == p :: d in vecs <==> d in RowIds(rows, p) || (d in vecs0 && d !in RowIds(rows0, p))
  }

  ghost predicate Carried(rows0: map<Path, Row>, vecs0: set<DocId>, rows: map<Path, Row>, vecs: set<DocId>) {
    forall d: DocId :: d in vecs <==> d in RowIds(rows, d.path) || (d in vecs0 && d !in RowIds(rows0, d.path))
  }

  /** The run stands where it stood. */
  ghost predicate Stands(s: State, s': State) {
    && s'.settled == s.settled && s'.clean == s.clean && s'.touched == s.touched && s'.steady == s.steady
    && s'.linked == s.linked
  }

  /** Nothing but the row and the vectors of `p` differs. */
  ghost predicate OnlyPathChanged(p: Path, rows: map<Path, Row>, vecs: set<DocId>,
                                  rows': map<Path, Row>, vecs': set<DocId>) {
    && (forall q | q != p :: RowAt(rows', q) == RowAt(rows, q))
    && (forall d: DocId | d.path != p :: d in vecs' <==> d in vecs)
  }

  /** What fails does so because an operation failed. */
  predicate Blamed(before: nat, after: nat, failed: bool) { before <= after && (failed ==> before < after) }

  // --- helpers ---------------------------------------------------------------

  function Without(ids: seq<DocId>, drop: seq<DocId>): (r: seq<DocId>)
    ensures forall d :: d in r <==> d in ids && d !in drop
  {
    if ids == [] then []
    else
      var n := |ids| - 1;
      assert ids == ids[..n] + [ids[n]];
      Without(ids[..n], drop) + if ids[n] in drop then [] else [ids[n]]
  }

  /** Old ids that are not in the new list, in order. */
  method StaleDocIDs(oldIds: seq<DocId>, newIds: seq<DocId>) returns (stale: seq<DocId>)
    ensures stale == Without(oldIds, newIds)
  {
    stale := [];
    for i := 0 to |oldIds|
      invariant stale == Without(oldIds[..i], newIds)
    {
      assert oldIds[..i + 1][..i] == oldIds[..i];
      if oldIds[i] !in newIds {
        stale := stale + [oldIds[i]];
      }
    }
    assert oldIds[..|oldIds|] == oldIds;
  }

  /** Ids of a failed update that no committed row of the same path still uses. */
  method RollbackNewDocIDs(newIds: seq<DocId>, old_: Option<Row>) returns (ids: seq<DocId>)
    ensures ids == if old_.None? then newIds else Without(newIds, old_.value.docIds)
  {
    if old_.None? || old_.value.docIds == [] {
      ids := newIds;
      if old_.Some? { KeepAll(newIds); }
    } else {
      ids := StaleDocIDs(newIds, old_.value.docIds);
    }
  }

  lemma {:induction false} KeepAll(ids: seq<DocId>)
    ensures Without(ids, []) == ids
  {
    if ids != [] {
      KeepAll(ids[..|ids| - 1]);
    }
  }

  /** One attempt; `left` is what a failed one still has to delete. */
  method DeleteOnce(ix: Index, p: Path, ids: seq<DocId>) returns (err: Option<Err>, left: seq<DocId>)
    requires ix.Valid() && Legal(ix.trace)
    requires forall d | d in ids :: d.path == p && d !in RowIds(ix.rows, p)
    modifies ix
    ensures ix.Valid() && Legal(ix.trace) && CrashPoint(old(ix.trace), ix.trace)
    ensures ix.rows == old(ix.rows) && ix.journal == old(ix.journal)
    ensures Now(ix.trace) == old(Now(ix.trace)).(disk := old(Now(ix.trace)).disk.(vecs := ix.vecs))
    ensures old(ix.vecs) - SetOf(ids) <= ix.vecs <= old(ix.vecs)
    ensures err.None? && ix.linked ==> ix.vecs == old(ix.vecs) - SetOf(ids)
    ensures err.Some? ==> err.value != NotExist && SetOf(left) <= SetOf(ids) && (SetOf(ids) - SetOf(left)) !! ix.vecs
    ensures old(ix.faults) <= ix.faults && (err.Some? ==> ix.faults == old(ix.faults) + 1)
  {
    left := ids;
    var r := ix.DeleteByIDs(ids, Stale(p));
    if r.Tolerated() {
      return None, [];
    }
    if r.Partial? && r.succeeded != [] {
      left := StaleDocIDs(ids, r.succeeded);
      if left == [] {
        assert forall d | d in ids :: d in SetOf(r.succeeded);
        return None, [];
      }
    }
    err := Some(r.err);
  }

  /** Deletes with up to three attempts, asking again only for what is left. */
  method DeleteStaleVectors(ix: Index, p: Path, stale: seq<DocId>) returns (err: Option<Err>)
    requires ix.Valid() && Legal(ix.trace)
    requires forall d | d in stale :: d.path == p && d !in RowIds(ix.rows, p)
    modifies ix
    ensures ix.Valid() && Legal(ix.trace) && CrashPoint(old(ix.trace), ix.trace)
    ensures ix.rows == old(ix.rows) && ix.journal == old(ix.journal)
    ensures Now(ix.trace) == old(Now(ix.trace)).(disk := old(Now(ix.trace)).disk.(vecs := ix.vecs))
    ensures old(ix.vecs) - SetOf(stale) <= ix.vecs <= old(ix.vecs)
    ensures err.None? && ix.linked ==> ix.vecs == old(ix.vecs) - SetOf(stale)
    ensures err.Some? ==> err.value != NotExist
    ensures old(ix.faults) <= ix.faults && (err.Some? ==> ix.faults == old(ix.faults) + DELETE_ATTEMPTS)
  {
    var ids := stale;
    err := None;
    for attempt := 0 to DELETE_ATTEMPTS
      invariant ix.Valid() && Legal(ix.trace) && CrashPoint(old(ix.trace), ix.trace)
      invariant ix.rows == old(ix.rows) && ix.journal == old(ix.journal)
      invariant Now(ix.trace) == old(Now(ix.trace)).(disk := old(Now(ix.trace)).disk.(vecs := ix.vecs))
      invariant SetOf(ids) <= SetOf(stale)
      invariant (SetOf(stale) - SetOf(ids)) !! ix.vecs
      invariant old(ix.vecs) - SetOf(stale) <= ix.vecs <= old(ix.vecs)
      invariant attempt > 0 ==> err.Some? && err.value != NotExist
      invariant ix.faults == old(ix.faults) + attempt
    {
      forall d | d in ids ensures d in stale { assert d in SetOf(ids); }
      ghost var before := ix.trace;
      err, ids := DeleteOnce(ix, p, ids);
      CrashPointTransitive(old(ix.trace), before, ix.trace);
      if err.None? {
        return;
      }
    }
  }

  /** Replays the journal into the active collection; failures are only logged. */
  method ReconcileCleanupJournal(ix: Index)
    requires ix.Valid() && Legal(ix.trace) && !Now(ix.trace).settled
    modifies ix
    ensures ix.Valid() && Legal(ix.trace) && CrashPoint(old(ix.trace), ix.trace)
    ensures ix.rows == old(ix.rows)
    ensures old(ix.vecs) - SetOf(Pending(old(ix.journal))) <= ix.vecs <= old(ix.vecs)
    ensures ix.journal == old(ix.journal) || ix.journal == None
    ensures ix.linked && ix.journal != old(ix.journal) ==> ix.vecs == old(ix.vecs) - SetOf(Pending(old(ix.journal)))
    ensures Now(ix.trace) == old(Now(ix.trace)).(disk := Disk(ix.rows, ix.vecs, ix.journal))
    ensures old(ix.faults) <= ix.faults && (ix.faults == old(ix.faults) ==> Pending(ix.journal) == [])
  {
    var ids, failed := ix.JournalPending();
    if failed || |ids| == 0 {
      return;
    }
    assert ix.journal.Some? && ids == Pending(ix.journal);
    var r := ix.DeleteByIDs(ids, Replay);
    if !r.Tolerated() {
      return;
    }
    var _ := ix.JournalClear();
  }

  lemma NextBatch(ids: seq<DocId>, i: nat, end: nat)
    requires i <= end <= |ids|
    ensures ids[..end] == ids[..i] + ids[i..end]
    ensures SetOf(ids[..end]) == SetOf(ids[..i]) + SetOf(ids[i..end])
    ensures SetOf(ids[..end]) <= SetOf(ids)
  {
    assert ids[..end] == ids[..i] + ids[i..end];
    SetOfConcat(ids[..i], ids[i..end]);
  }

  /** Embeds and upserts the chunks of a file batch by batch. The environment may end
      it between batches: cancelled context, embedder, oversized line or file. A file that
      is gone when it is opened for chunking is NotExist. */
  method UpsertBatches(ix: Index, p: Path, found: Option<seq<DocId>>, batchSize: int)
    returns (err: Option<Err>, newDocIds: seq<DocId>, told: bool)
    requires ix.Valid() && Legal(ix.trace)
    requires found.Some? ==> forall d | d in found.value :: d.path == p
    modifies ix
    ensures ix.Valid() && Legal(ix.trace) && CrashPoint(old(ix.trace), ix.trace)
    ensures ix.rows == old(ix.rows) && ix.journal == old(ix.journal)
    ensures Now(ix.trace) == old(Now(ix.trace)).(disk := old(Now(ix.trace)).disk.(vecs := ix.vecs))
    ensures found.None? ==> err == Some(NotExist) && newDocIds == [] && ix.vecs == old(ix.vecs)
    ensures found.Some? ==> old(ix.vecs) <= ix.vecs <= old(ix.vecs) + SetOf(found.value)
    ensures found.Some? ==> newDocIds <= found.value && err != Some(NotExist)
    ensures told && ix.linked ==> ix.vecs == old(ix.vecs) + SetOf(newDocIds)
    ensures err.None? ==> told && newDocIds == found.value
    ensures ix.faults == old(ix.faults) + Fault(found.Some? && err.Some?)
  {
    if found.None? {
      return Some(NotExist), [], true;
    }
    err, newDocIds, told := UpsertFound(ix, p, found.value, batchSize);
  }

  /** The batches of a file that could be opened. */
  method UpsertFound(ix: Index, p: Path, ids: seq<DocId>, batchSize: int)
    returns (err: Option<Err>, newDocIds: seq<DocId>, told: bool)
    requires ix.Valid() && Legal(ix.trace)
    requires forall d | d in ids :: d.path == p
    modifies ix
    ensures ix.Valid() && Legal(ix.trace) && CrashPoint(old(ix.trace), ix.trace)
    ensures ix.rows == old(ix.rows) && ix.journal == old(ix.journal)
    ensures Now(ix.trace) == old(Now(ix.trace)).(disk := old(Now(ix.trace)).disk.(vecs := ix.vecs))
    ensures old(ix.vecs) <= ix.vecs <= old(ix.vecs) + SetOf(ids)
    ensures newDocIds <= ids && err != Some(NotExist)
    ensures told && ix.linked ==> ix.vecs == old(ix.vecs) + SetOf(newDocIds)
    ensures err.None? ==> told && newDocIds == ids
    ensures ix.faults == old(ix.faults) + Fault(err.Some?)
  {
    err, newDocIds, told := UpsertAll(ix, p, ids, batchSize);
    if err.None? {
      var failed := ix.Disturbed();
      err := if failed then Some(Skippable) else None;
    }
  }

  method UpsertAll(ix: Index, p: Path, ids: seq<DocId>, batchSize: int)
    returns (err: Option<Err>, newDocIds: seq<DocId>, told: bool)
    requires ix.Valid() && Legal(ix.trace)
    requires forall d | d in ids :: d.path == p
    modifies ix
    ensures ix.Valid() && Legal(ix.trace) && CrashPoint(old(ix.trace), ix.trace)
    ensures ix.rows == old(ix.rows) && ix.journal == old(ix.journal)
    ensures Now(ix.trace) == old(Now(ix.trace)).(disk := old(Now(ix.trace)).disk.(vecs := ix.vecs))
    ensures UpTo(old(ix.vecs), ix.vecs, ids, newDocIds, told && ix.linked) && err != Some(NotExist)
    ensures err.None? ==> told && newDocIds == ids
    ensures ix.faults == old(ix.faults) + Fault(err.Some?)
  {
    told := true;
    var size := if batchSize <= 0 then DEFAULT_BATCH_SIZE else batchSize;
    newDocIds := [];
    var i := 0;
    ghost var before, vecs0 := ix.trace, ix.vecs;
    while i < |ids|
      invariant 0 <= i <= |ids| && before == ix.trace
      invariant ix.Valid() && Legal(ix.trace) && CrashPoint(old(ix.trace), ix.trace)
      invariant ix.rows == old(ix.rows) && ix.journal == old(ix.journal) && ix.faults == old(ix.faults)
      invariant Now(ix.trace) == old(Now(ix.trace)).(disk := old(Now(ix.trace)).disk.(vecs := ix.vecs))
      invariant told && newDocIds == ids[..i] && UpTo(vecs0, ix.vecs, ids, newDocIds, ix.linked)
    {
      var end := if i + size <= |ids| then i + size else |ids|;
      var batch := ids[i..end];
      ghost var vecs := ix.vecs;
      var stored;
      err, stored, told := UpsertBatch(ix, p, batch);
      CrashPointTransitive(old(ix.trace), before, ix.trace);
      before := ix.trace;
      BatchDone(vecs0, vecs, ix.vecs, ids, i, end, stored, ix.linked, told);
      newDocIds := newDocIds + stored;
      if err.Some? {
        return;
      }
      i := end;
    }
    assert ids[..|ids|] == ids;
    err := None;
  }

  /** What has been stored of `ids`: all that is reported, and nothing else when told. */
  ghost predicate UpTo(vecs0: set<DocId>, vecs: set<DocId>, ids: seq<DocId>, reported: seq<DocId>, told: bool) {
    reported <= ids && vecs0 <= vecs <= vecs0 + SetOf(ids) && (told ==> vecs == vecs0 + SetOf(reported))
  }

  lemma BatchDone(vecs0: set<DocId>, mid: set<DocId>, vecs: set<DocId>, ids: seq<DocId>, i: nat, end: nat, stored: seq<DocId>,
                  linked: bool, told: bool)
    requires i <= end <= |ids| && UpTo(vecs0, mid, ids, ids[..i], linked) && stored <= ids[i..end]
    requires mid <= vecs <= mid + SetOf(ids[i..end]) && (told && linked ==> vecs == mid + SetOf(stored))
    ensures UpTo(vecs0, vecs, ids, ids[..i] + stored, told && linked)
    ensures stored == ids[i..end] ==> ids[..i] + stored == ids[..end]
  {
    NextBatch(ids, i, end);
    assert ids == ids[..end] + ids[end..];
    SetOfConcat(ids[..end], ids[end..]);
    SetOfConcat(ids[..i], stored);
  }

  /** One batch: embedded and stored, or the reason why not and what was reported. */
  method UpsertBatch(ix: Index, p: Path, batch: seq<DocId>) returns (err: Option<Err>, stored: seq<DocId>, told: bool)
    requires ix.Valid() && Legal(ix.trace) && forall d | d in batch :: d.path == p
    modifies ix
    ensures ix.Valid() && Legal(ix.trace) && CrashPoint(old(ix.trace), ix.trace)
    ensures ix.rows == old(ix.rows) && ix.journal == old(ix.journal)
    ensures Now(ix.trace) == old(Now(ix.trace)).(disk := old(Now(ix.trace)).disk.(vecs := ix.vecs))
    ensures old(ix.vecs) <= ix.vecs <= old(ix.vecs) + SetOf(batch)
    ensures stored <= batch && err != Some(NotExist)
    ensures told && ix.linked ==> ix.vecs == old(ix.vecs) + SetOf(stored)
    ensures err.None? ==> told && stored == batch
    ensures ix.faults == old(ix.faults) + Fault(err.Some?)
  {
    var failed := ix.Disturbed();
    if failed {
      var skippable: bool := *;
      return Some(if skippable then Skippable else Abort), [], true;
    }
    var r := ix.UpsertChunks(p, batch);
    if r.Tolerated() {
      return None, batch, true;
    }
    return Some(r.err), if r.Partial? || r.FlushFailed? then r.succeeded else [], false;
  }

  /** Takes back the vectors of a failed update, best effort. */
  method Rollback(ix: Index, p: Path, newDocIds: seq<DocId>, old_: Option<Row>) returns (undo: Attempt)
    requires ix.Valid() && Legal(ix.trace)
    requires old_ == if p in ix.rows then Some(ix.rows[p]) else None
    requires forall d | d in newDocIds :: d.path == p
    modifies ix
    ensures ix.Valid() && Legal(ix.trace) && CrashPoint(old(ix.trace), ix.trace)
    ensures ix.rows == old(ix.rows) && ix.journal == old(ix.journal)
    ensures Now(ix.trace) == old(Now(ix.trace)).(disk := old(Now(ix.trace)).disk.(vecs := ix.vecs))
    ensures ix.vecs <= old(ix.vecs)
    ensures forall d | d in old(ix.vecs) && d !in ix.vecs :: d in newDocIds && d !in RowIds(ix.rows, p)
    ensures undo.NotNeeded? <==> SetOf(newDocIds) <= RowIds(ix.rows, p)
    ensures undo.NotNeeded? ==> ix.vecs == old(ix.vecs)
    ensures !undo.DidNotWork? && ix.linked ==> ix.vecs == old(ix.vecs) - (SetOf(newDocIds) - RowIds(ix.rows, p))
    ensures ix.faults == old(ix.faults) + Fault(undo.DidNotWork?)
  {
    var ids := RollbackNewDocIDs(newDocIds, old_);
    assert SetOf(ids) == SetOf(newDocIds) - RowIds(ix.rows, p);
    undo := NotNeeded;
    if |ids| > 0 {
      assert ids[0] in SetOf(ids);
      var r := ix.DeleteByIDs(ids, Reason.Rollback(p));
      undo := if r.Tolerated() then Worked else DidNotWork;
    }
  }

  /** Deletes a path's vectors and then its row. */
  method RemovePath(ix: Index, p: Path, old_: Option<Row>) returns (err: Option<Err>)
    requires ix.Valid() && Legal(ix.trace) && RowsOwn(ix.rows)
    requires old_ == if p in ix.rows then Some(ix.rows[p]) else None
    modifies ix
    ensures ix.Valid() && Legal(ix.trace) && CrashPoint(old(ix.trace), ix.trace)
    ensures Stands(old(Now(ix.trace)), Now(ix.trace))
    ensures RowsOwn(ix.rows) && OnlyPathChanged(p, old(ix.rows), old(ix.vecs), ix.rows, ix.vecs)
    ensures ix.journal == old(ix.journal)
    ensures err.Some? ==> err.value != NotExist
    ensures err.None? ==> ix.rows == old(ix.rows) - {p}
    ensures err.None? && ix.linked ==> ix.vecs == old(ix.vecs) - RowIds(old(ix.rows), p)
    ensures err.Some? ==> ix.rows == old(ix.rows)
    ensures old(ix.vecs) - RowIds(old(ix.rows), p) <= ix.vecs <= old(ix.vecs)
    ensures ix.faults == old(ix.faults) + Fault(err.Some?)
  {
    if old_.Some? && |old_.value.docIds| > 0 {
      assert SetOf(old_.value.docIds) == RowIds(ix.rows, p);
      var r := ix.DeleteByIDs(old_.value.docIds, Removal(p));
      if !r.Tolerated() {
        return Some(r.err);
      }
    }
    var ok := ix.ManifestDelete(p);
    err := if ok then None else Some(Abort);
  }

  /** The ids that the new row of `p` replaces. */
  ghost function Replaced(rows: map<Path, Row>, p: Path, ids: seq<DocId>): set<DocId> { RowIds(rows, p) - SetOf(ids) }

  method PutRow(ix: Index, p: Path, row: Row) returns (ok: bool)
    requires ix.Valid() && Legal(ix.trace) && Enabled(Now(ix.trace), RowPut(p, row))
    modifies ix
    ensures ix.Valid() && Legal(ix.trace) && CrashPoint(old(ix.trace), ix.trace)
    ensures ix.vecs == old(ix.vecs) && ix.journal == old(ix.journal)
    ensures ix.rows == if ok then old(ix.rows)[p := row] else old(ix.rows)
    ensures !ok ==> ix.trace == old(ix.trace)
    ensures Now(ix.trace).settled && Now(ix.trace).clean == old(Now(ix.trace)).clean
    ensures Now(ix.trace).touched == if ok then old(Now(ix.trace)).touched + {p} else old(Now(ix.trace)).touched
    ensures RowConsistent(p, row) ==> Now(ix.trace).steady == old(Now(ix.trace)).steady
    ensures ix.faults == old(ix.faults) + Fault(!ok)
  {
    ok := ix.ManifestUpsert(p, row);
  }

  /** Publishes the new row, then journals and deletes the ids it replaces. */
  method CommitRow(ix: Index, p: Path, row: Row, old_: Option<Row>) returns (err: Option<Err>, fate: Fate)
    requires ix.Valid() && Legal(ix.trace) && RowsOwn(ix.rows)
    requires old_ == RowAt(ix.rows, p)
    requires Enabled(Now(ix.trace), RowPut(p, row))
    modifies ix
    ensures ix.Valid() && Legal(ix.trace) && CrashPoint(old(ix.trace), ix.trace)
    ensures Now(ix.trace).settled && Now(ix.trace).clean == old(Now(ix.trace)).clean
    ensures RowConsistent(p, row) ==> Now(ix.trace).steady == old(Now(ix.trace)).steady
    ensures old(Now(ix.trace)).touched <= Now(ix.trace).touched <= old(Now(ix.trace)).touched + {p}
    ensures RowsOwn(ix.rows) && OnlyPathChanged(p, old(ix.rows), old(ix.vecs), ix.rows, ix.vecs)
    ensures err.Some? ==> err.value != NotExist
    ensures fate.Published? || (fate.TakenBack? && fate.told && err.Some?)
    ensures fate.Published? ==>
      && ix.rows == old(ix.rows)[p := row] && Committed(old(ix.rows), ix.journal, p, row.docIds, fate.journaled, err.Some?)
      && old(ix.vecs) - Replaced(old(ix.rows), p, row.docIds) <= ix.vecs <= old(ix.vecs)
    ensures fate.TakenBack? ==> ix.rows == old(ix.rows) && ix.journal == old(ix.journal)
    ensures fate.TakenBack? ==> old(ix.vecs) - (SetOf(row.docIds) - RowIds(old(ix.rows), p)) <= ix.vecs <= old(ix.vecs)
    ensures fate.TakenBack? && !fate.undo.DidNotWork? && ix.linked ==>
      ix.vecs == old(ix.vecs) - (SetOf(row.docIds) - RowIds(old(ix.rows), p))
    ensures err.None? && ix.linked ==> ix.vecs == old(ix.vecs) - Replaced(old(ix.rows), p, row.docIds)
    ensures Blamed(old(ix.faults), ix.faults,
      err.Some? || (fate.Published? && fate.journaled.DidNotWork? && old(ix.journal).Some?))
    ensures fate.TakenBack? ==> ix.faults == old(ix.faults) + 1 + Fault(fate.undo.DidNotWork?)
  {
    var stale: seq<DocId> := [];
    if old_.Some? && old_.value.docIds != [] {
      stale := StaleDocIDs(old_.value.docIds, row.docIds);
    }
    assert SetOf(stale) == Replaced(ix.rows, p, row.docIds);
    var ok := PutRow(ix, p, row);
    if !ok {
      var undo := Rollback(ix, p, row.docIds, old_);
      return Some(Abort), TakenBack(true, undo);
    }
    ghost var committed := ix.trace;
    err, fate := AfterCommit(ix, p, row, stale, old(ix.rows));
    CrashPointTransitive(old(ix.trace), committed, ix.trace);
  }

  /** The row is out: what it replaces goes. */
  method AfterCommit(ix: Index, p: Path, row: Row, stale: seq<DocId>, ghost rows0: map<Path, Row>) returns (err: Option<Err>, fate: Fate)
    requires ix.Valid() && Legal(ix.trace) && p in Now(ix.trace).touched && Now(ix.trace).settled
    requires RowsOwn(rows0) && RowsOwn(ix.rows) && ix.rows == rows0[p := row] && SetOf(stale) == Replaced(rows0, p, row.docIds)
    modifies ix
    ensures ix.Valid() && Legal(ix.trace) && CrashPoint(old(ix.trace), ix.trace)
    ensures Stands(old(Now(ix.trace)), Now(ix.trace)) && ix.rows == old(ix.rows)
    ensures fate.Published? && Committed(rows0, ix.journal, p, row.docIds, fate.journaled, err.Some?)
    ensures err.Some? ==> err.value != NotExist
    ensures old(ix.vecs) - Replaced(rows0, p, row.docIds) <= ix.vecs <= old(ix.vecs)
    ensures err.None? && ix.linked ==> ix.vecs == old(ix.vecs) - Replaced(rows0, p, row.docIds)
    ensures Blamed(old(ix.faults), ix.faults, err.Some? || (fate.journaled.DidNotWork? && old(ix.journal).Some?))
  {
    forall d | d in stale ensures d.path == p && d.ordinal > 0 && d !in RowIds(ix.rows, p) {
      assert d in SetOf(stale);
    }
    var journaled;
    err, journaled := DeleteReplaced(ix, p, stale);
    forall d | d in Replaced(rows0, p, row.docIds) ensures d in stale {
      assert d in SetOf(stale);
    }
    fate := Published(journaled);
  }

  /** Journals the ids that a committed row has replaced, then deletes them. */
  method DeleteReplaced(ix: Index, p: Path, stale: seq<DocId>) returns (err: Option<Err>, journaled: Attempt)
    requires ix.Valid() && Legal(ix.trace) && p in Now(ix.trace).touched
    requires forall d | d in stale :: d.path == p && d.ordinal > 0 && d !in RowIds(ix.rows, p)
    modifies ix
    ensures ix.Valid() && Legal(ix.trace) && CrashPoint(old(ix.trace), ix.trace)
    ensures ix.rows == old(ix.rows) && (journaled.NotNeeded? <==> SetOf(stale) == {})
    ensures err.Some? ==> !journaled.NotNeeded?
    ensures Now(ix.trace) == old(Now(ix.trace)).(disk := Disk(ix.rows, ix.vecs, ix.journal))
    ensures journaled.Worked? ==> forall d | d in stale :: d in Pending(ix.journal)
    ensures old(ix.vecs) - SetOf(stale) <= ix.vecs <= old(ix.vecs)
    ensures err.None? && ix.linked ==> ix.vecs == old(ix.vecs) - SetOf(stale)
    ensures err.Some? ==> err.value != NotExist
    ensures Blamed(old(ix.faults), ix.faults, err.Some? || (journaled.DidNotWork? && old(ix.journal).Some?))
  {
    if stale == [] {
      return None, NotNeeded;
    }
    assert stale[0] in SetOf(stale);
    var appended := ix.JournalAppend(p, stale);
    ghost var before := ix.trace;
    journaled := if appended then Worked else DidNotWork;
    err := DeleteStaleVectors(ix, p, stale);
    CrashPointTransitive(old(ix.trace), before, ix.trace);
  }

  /** The row of `p` now has these ids. The ids it replaced, if any, are in the journal
      unless the journal could not be written; only their deletion can have failed. */
  ghost predicate Committed(rows0: map<Path, Row>, journal: Option<seq<DocId>>, p: Path, ids: seq<DocId>, journaled: Attempt,
                            failed: bool) {
    && (journaled.NotNeeded? <==> Replaced(rows0, p, ids) == {})
    && (journaled.Worked? ==> forall d | d in Replaced(rows0, p, ids) :: d in Pending(journal))
    && (failed ==> !journaled.NotNeeded?)
  }

  // --- one file --------------------------------------------------------------

  /** A store that was exact for `p` is exact again, or holds orphans that are journaled,
      or holds what could not be taken back or was never reported, or lacks vectors of a
      row that is being removed. */
  ghost predicate Explained(fate: Fate, failed: bool, p: Path, view: FileView, rows0: map<Path, Row>, vecs0: set<DocId>,
                            rows: map<Path, Row>, vecs: set<DocId>, journal: Option<seq<DocId>>) {
    match fate
    case Untouched => rows == rows0 && vecs == vecs0
    case TakenBack(told, undo) => failed && rows == rows0 && vecs0 <= vecs && (told && !undo.DidNotWork? ==> vecs == vecs0)
    case Dropped => view.Readable? && view.chunked.Some? && view.chunked.value.chunks == [] && vecs <= vecs0 && (failed ==> rows == rows0)
    case Published(journaled) =>
      && RowAt(rows, p) == Expected(p, view) && RowIds(rows, p) <= vecs
      && (journaled.Worked? ==> forall d | d in vecs && d.path == p && d !in RowIds(rows, p) :: d in Pending(journal))
      && (journaled.NotNeeded? ==> ExactAt(rows, vecs, p))
  }

  ghost predicate SameAt(p: Path, vecs0: set<DocId>, vecs: set<DocId>) {
    forall d: DocId | d.path == p :: d in vecs0 <==> d in vecs
  }

  /** The row of `p` has lost none of its vectors. */
  ghost predicate KeepsVectors(p: Path, rows0: map<Path, Row>, vecs0: set<DocId>, vecs: set<DocId>) {
    forall d | d in RowIds(rows0, p) && d in vecs0 :: d in vecs
  }

  /** Taking an update back did not work because that failed, too. */
  predicate TriedToUndo(fate: Fate, before: nat, after: nat) { fate.TakenBack? && fate.undo.DidNotWork? ==> before + 2 <= after }

  /** What an update that failed leaves of `p`: everything as it was, or the row with its
      vectors, or the row with some of its vectors when they were being removed, or the row of a
      rebuild with all of its vectors. */
  ghost predicate Fails(fate: Fate, p: Path, view: FileView, linked: bool, rows0: map<Path, Row>, vecs0: set<DocId>,
                        rows: map<Path, Row>, vecs: set<DocId>) {
    match fate
    case Untouched => RowAt(rows, p) == RowAt(rows0, p) && SameAt(p, vecs0, vecs)
    case TakenBack(told, undo) =>
      && view.Readable? && RowAt(rows, p) == RowAt(rows0, p) && KeepsVectors(p, rows0, vecs0, vecs)
      && (linked && told && !undo.DidNotWork? && ExactAt(rows0, vecs0, p) ==> SameAt(p, vecs0, vecs))
    case Dropped =>
      && view.Readable? && view.chunked.Some? && view.chunked.value.chunks == [] && RowAt(rows, p) == RowAt(rows0, p)
      && forall d: DocId | d.path == p :: (d in vecs ==> d in vecs0) && (d in vecs0 && d !in RowIds(rows0, p) ==> d in vecs)
    case Published(_) =>
      view.Readable? && p in rows && RowAt(rows, p) == Expected(p, view) && (linked ==> RowIds(rows, p) <= vecs)
  }

  /** What a turn leaves of its file. An unreadable file is left alone; one that vanished is
      purged, or keeps its row. */
  ghost predicate Leaves(end: FileEnd, p: Path, view: FileView, linked: bool, rows0: map<Path, Row>, vecs0: set<DocId>,
                         rows: map<Path, Row>, vecs: set<DocId>) {
    match end
    case Indexed(_) =>
      && view.Readable?
      && (if p in rows0 && Unchanged(rows0[p], view) then RowAt(rows, p) == RowAt(rows0, p) && SameAt(p, vecs0, vecs)
          else view.chunked.Some? && RowAt(rows, p) == Expected(p, view))
      && (linked && StoredAt(rows0, vecs0, p) ==> CarriedAt(p, rows0, vecs0, rows, vecs))
    case Purged =>
      && Gone(view) && p !in rows
      && (linked ==> forall d: DocId | d.path == p :: d in vecs <==> d in vecs0 && d !in RowIds(rows0, p))
    case Failed(fate) =>
      && !Gone(view) && view != Unreadable(Abort) && (view.Unreadable? <==> fate.Untouched?)
      && Fails(fate, p, view, linked, rows0, vecs0, rows, vecs)
    case Unpurged =>
      && Gone(view) && RowAt(rows, p) == RowAt(rows0, p)
      && forall d: DocId | d.path == p :: (d in vecs ==> d in vecs0) && (d in vecs0 && d !in RowIds(rows0, p) ==> d in vecs)
  }

  /** A turn is not undone by what happens to other paths. */
  lemma LeavesStays(end: FileEnd, p: Path, view: FileView, linked: bool, rows0: map<Path, Row>, vecs0: set<DocId>,
                    rows: map<Path, Row>, vecs: set<DocId>, rows': map<Path, Row>, vecs': set<DocId>)
    requires Leaves(end, p, view, linked, rows0, vecs0, rows, vecs) && RowsOwn(rows0) && RowsOwn(rows)
    requires RowAt(rows', p) == RowAt(rows, p) && SameAt(p, vecs, vecs')
    ensures Leaves(end, p, view, linked, rows0, vecs0, rows', vecs')
  {
  }

  /** Nor does it depend on what happened to others before. */
  lemma LeavesFrom(end: FileEnd, p: Path, view: FileView, linked: bool, rows0: map<Path, Row>, vecs0: set<DocId>,
                   mid: map<Path, Row>, midVecs: set<DocId>, rows: map<Path, Row>, vecs: set<DocId>)
    requires Leaves(end, p, view, linked, mid, midVecs, rows, vecs) && RowsOwn(rows0) && RowsOwn(mid)
    requires RowAt(mid, p) == RowAt(rows0, p) && SameAt(p, vecs0, midVecs)
    ensures Leaves(end, p, view, linked, rows0, vecs0, rows, vecs)
  {
  }

  /** What a rollback deletes was not there before the update. */
  lemma TakenBackIsExplained(told: bool, undo: Attempt, p: Path, view: FileView, rows: map<Path, Row>, vecs0: set<DocId>,
                             mid: set<DocId>, ids: seq<DocId>, vecs: set<DocId>, journal: Option<seq<DocId>>)
    requires ExactAt(rows, vecs0, p) && forall d | d in ids :: d.path == p
    requires vecs0 <= mid && (told ==> mid == vecs0 + SetOf(ids))
    requires mid - (SetOf(ids) - RowIds(rows, p)) <= vecs <= mid
    requires !undo.DidNotWork? ==> vecs == mid - (SetOf(ids) - RowIds(rows, p))
    ensures Explained(TakenBack(told, undo), true, p, view, rows, vecs0, rows, vecs, journal)
  {
    assert (SetOf(ids) - RowIds(rows, p)) !! vecs0;
  }

  lemma PublishedIsExplained(journaled: Attempt, failed: bool, p: Path, view: FileView, row: Row, rows0: map<Path, Row>,
                             vecs0: set<DocId>, vecs: set<DocId>, journal: Option<seq<DocId>>)
    requires ExactAt(rows0, vecs0, p) && Expected(p, view) == Some(row) && forall d | d in row.docIds :: d.path == p
    requires Committed(rows0, journal, p, row.docIds, journaled, failed)
    requires vecs0 + SetOf(row.docIds) - Replaced(rows0, p, row.docIds) <= vecs <= vecs0 + SetOf(row.docIds)
    requires !failed ==> vecs == vecs0 + SetOf(row.docIds) - Replaced(rows0, p, row.docIds)
    ensures Explained(Published(journaled), failed, p, view, rows0, vecs0, rows0[p := row], vecs, journal)
    ensures !failed ==> ExactAt(rows0[p := row], vecs, p)
  {
    var rows := rows0[p := row];
    assert RowIds(rows, p) == SetOf(row.docIds);
    forall d | d in vecs && d.path == p && d !in RowIds(rows, p) ensures d in Replaced(rows0, p, row.docIds) {
      assert d in vecs0;
    }
  }

  /** A successful update carries over what no row recorded. */
  lemma UpdateCarries(p: Path, row: Row, rows0: map<Path, Row>, vecs0: set<DocId>, vecs: set<DocId>)
    requires StoredAt(rows0, vecs0, p) && forall d | d in row.docIds :: d.path == p
    requires vecs == vecs0 + SetOf(row.docIds) - Replaced(rows0, p, row.docIds)
    ensures CarriedAt(p, rows0, vecs0, rows0[p := row], vecs)
  {
    assert RowIds(rows0[p := row], p) == SetOf(row.docIds);
  }

  /** Reindexes one path; returns None on success. */
  method IndexFile(ix: Index, p: Path, view: FileView, batchSize: int) returns (err: Option<Err>, fate: Fate)
    requires ix.Valid() && Legal(ix.trace) && Now(ix.trace).settled && p !in Now(ix.trace).touched
    requires RowsOwn(ix.rows)
    modifies ix
    ensures ix.Valid() && Legal(ix.trace) && CrashPoint(old(ix.trace), ix.trace)
    ensures Now(ix.trace).settled && Now(ix.trace).clean == old(Now(ix.trace)).clean
    ensures Steady(view) ==> Now(ix.trace).steady == old(Now(ix.trace)).steady
    ensures old(Now(ix.trace)).touched <= Now(ix.trace).touched <= old(Now(ix.trace)).touched + {p}
    ensures RowsOwn(ix.rows) && OnlyPathChanged(p, old(ix.rows), old(ix.vecs), ix.rows, ix.vecs)
    ensures err == Some(NotExist) ==>
      Gone(view) && ix.rows == old(ix.rows) && ix.vecs == old(ix.vecs)
    ensures view.Unreadable? ==> err == Some(view.err)
    ensures err.None? && ix.linked && old(StoredAt(ix.rows, ix.vecs, p)) ==>
      CarriedAt(p, old(ix.rows), old(ix.vecs), ix.rows, ix.vecs)
    ensures err.None? ==> Reindexed(old(ix.rows), p, view, ix.rows)
    ensures fate.Untouched? ==> ix.vecs == old(ix.vecs)
    ensures err.None? ==> if old(p in ix.rows && Unchanged(ix.rows[p], view)) then fate.Untouched? else view.chunked.Some?
    ensures err == Some(Skippable) ==> !Gone(view) && (view.Unreadable? <==> fate.Untouched?)
    ensures err.Some? && err != Some(NotExist) ==> Fails(fate, p, view, ix.linked, old(ix.rows), old(ix.vecs), ix.rows, ix.vecs)
    ensures Blamed(old(ix.faults), ix.faults, err.Some? && err != Some(NotExist) && view.Readable?)
    ensures TriedToUndo(fate, old(ix.faults), ix.faults)
    ensures ix.linked && old(ExactAt(ix.rows, ix.vecs, p)) ==>
      Explained(fate, err.Some?, p, view, old(ix.rows), old(ix.vecs), ix.rows, ix.vecs, ix.journal)
  {
    if view.Unreadable? {
      return Some(view.err), Untouched;
    }
    var old_, failed := ix.ManifestGet(p);
    if failed {
      return Some(Abort), Untouched;
    }
    if old_.Some? && old_.value.mtime == view.mtime && old_.value.size == view.size && old_.value.hash == Some(view.content) {
      return None, Untouched;
    }
    err, fate := UpdateFile(ix, p, view, old_, batchSize);
  }

  /** A successful pass over a file keeps the row of an unchanged file and writes the row of
      a rebuild otherwise. */
  ghost predicate Reindexed(rows0: map<Path, Row>, p: Path, view: FileView, rows: map<Path, Row>) {
    if p in rows0 && Unchanged(rows0[p], view) then rows == rows0 else RowAt(rows, p) == Expected(p, view)
  }

  /** For a file chunked as it was hashed the kept row is the one of a rebuild. */
  lemma ReindexedIsExpected(rows0: map<Path, Row>, p: Path, view: FileView, rows: map<Path, Row>)
    requires Reindexed(rows0, p, view, rows) && Steady(view) && (p in rows0 ==> RowConsistent(p, rows0[p]))
    ensures RowAt(rows, p) == Expected(p, view)
  {
  }

  /** The update of a changed file: new vectors, then the row, then what it replaces. */
  method UpdateFile(ix: Index, p: Path, view: FileView, old_: Option<Row>, batchSize: int) returns (err: Option<Err>, fate: Fate)
    requires ix.Valid() && Legal(ix.trace) && Now(ix.trace).settled && p !in Now(ix.trace).touched
    requires RowsOwn(ix.rows) && view.Readable? && old_ == RowAt(ix.rows, p)
    modifies ix
    ensures ix.Valid() && Legal(ix.trace) && CrashPoint(old(ix.trace), ix.trace)
    ensures Now(ix.trace).settled && Now(ix.trace).clean == old(Now(ix.trace)).clean
    ensures Steady(view) ==> Now(ix.trace).steady == old(Now(ix.trace)).steady
    ensures old(Now(ix.trace)).touched <= Now(ix.trace).touched <= old(Now(ix.trace)).touched + {p}
    ensures RowsOwn(ix.rows) && OnlyPathChanged(p, old(ix.rows), old(ix.vecs), ix.rows, ix.vecs)
    ensures err == Some(NotExist) ==> view.chunked.None? && ix.rows == old(ix.rows) && ix.vecs == old(ix.vecs)
    ensures err.None? ==> RowAt(ix.rows, p) == Expected(p, view) && view.chunked.Some?
    ensures err.None? && ix.linked && old(StoredAt(ix.rows, ix.vecs, p)) ==>
      CarriedAt(p, old(ix.rows), old(ix.vecs), ix.rows, ix.vecs)
    ensures !fate.Untouched? && (view.chunked.None? ==> err == Some(NotExist))
    ensures err.Some? && err != Some(NotExist) ==> Fails(fate, p, view, ix.linked, old(ix.rows), old(ix.vecs), ix.rows, ix.vecs)
    ensures Blamed(old(ix.faults), ix.faults, err.Some? && err != Some(NotExist)) && TriedToUndo(fate, old(ix.faults), ix.faults)
    ensures ix.linked && old(ExactAt(ix.rows, ix.vecs, p)) ==>
      Explained(fate, err.Some?, p, view, old(ix.rows), old(ix.vecs), ix.rows, ix.vecs, ix.journal)
  {
    var found := if view.chunked.Some? then Some(IdsOf(p, view.chunked.value)) else None;
    var newDocIds, told;
    err, newDocIds, told := UpsertBatches(ix, p, found, batchSize);
    ghost var upserted := ix.trace;
    if err.Some? {
      fate := GiveUp(ix, p, view, newDocIds, told, old_, old(ix.vecs));
    } else if |newDocIds| == 0 {
      err := RemovePath(ix, p, old_);
      fate := Dropped;
    } else {
      err, fate := Publish(ix, p, view, newDocIds, old_, old(ix.vecs));
    }
    CrashPointTransitive(old(ix.trace), upserted, ix.trace);
  }

  /** Rolls a failed update back; `vecs0` was stored before it. */
  method GiveUp(ix: Index, p: Path, view: FileView, newDocIds: seq<DocId>, told: bool, old_: Option<Row>, ghost vecs0: set<DocId>)
    returns (fate: Fate)
    requires ix.Valid() && Legal(ix.trace) && old_ == RowAt(ix.rows, p) && forall d | d in newDocIds :: d.path == p
    requires vecs0 <= ix.vecs && (told && ix.linked ==> ix.vecs == vecs0 + SetOf(newDocIds))
    modifies ix
    ensures ix.Valid() && Legal(ix.trace) && CrashPoint(old(ix.trace), ix.trace)
    ensures ix.rows == old(ix.rows) && ix.journal == old(ix.journal) && Stands(old(Now(ix.trace)), Now(ix.trace))
    ensures forall d: DocId | d.path != p :: d in ix.vecs <==> d in old(ix.vecs)
    ensures newDocIds == [] ==> ix.vecs == old(ix.vecs) && ix.faults == old(ix.faults)
    ensures fate.TakenBack? && ix.faults == old(ix.faults) + Fault(fate.undo.DidNotWork?)
    ensures view.Readable? ==> Fails(fate, p, view, ix.linked, ix.rows, vecs0, ix.rows, ix.vecs)
    ensures ix.linked && ExactAt(ix.rows, vecs0, p) ==> Explained(fate, true, p, view, ix.rows, vecs0, ix.rows, ix.vecs, ix.journal)
  {
    var undo := Rollback(ix, p, newDocIds, old_);
    fate := TakenBack(told, undo);
    assert KeepsVectors(p, ix.rows, vecs0, ix.vecs);
    if ix.linked && ExactAt(ix.rows, vecs0, p) {
      TakenBackIsExplained(told, undo, p, view, ix.rows, vecs0, old(ix.vecs), newDocIds, ix.vecs, ix.journal);
    }
  }

  /** Commits the row of a file whose vectors are stored; `vecs0` was stored before them. */
  method Publish(ix: Index, p: Path, view: FileView, newDocIds: seq<DocId>, old_: Option<Row>, ghost vecs0: set<DocId>)
    returns (err: Option<Err>, fate: Fate)
    requires ix.Valid() && Legal(ix.trace) && Now(ix.trace).settled && p !in Now(ix.trace).touched
    requires RowsOwn(ix.rows) && view.Readable? && old_ == RowAt(ix.rows, p) && newDocIds != []
    requires view.chunked.Some? && newDocIds == IdsOf(p, view.chunked.value)
    requires vecs0 <= ix.vecs && (ix.linked ==> ix.vecs == vecs0 + SetOf(newDocIds))
    modifies ix
    ensures ix.Valid() && Legal(ix.trace) && CrashPoint(old(ix.trace), ix.trace)
    ensures Now(ix.trace).settled && Now(ix.trace).clean == old(Now(ix.trace)).clean
    ensures Steady(view) ==> Now(ix.trace).steady == old(Now(ix.trace)).steady
    ensures old(Now(ix.trace)).touched <= Now(ix.trace).touched <= old(Now(ix.trace)).touched + {p}
    ensures RowsOwn(ix.rows) && OnlyPathChanged(p, old(ix.rows), old(ix.vecs), ix.rows, ix.vecs)
    ensures err.Some? ==> err.value != NotExist
    ensures err.None? ==> RowAt(ix.rows, p) == Expected(p, view)
    ensures err.None? && ix.linked && StoredAt(old(ix.rows), vecs0, p) ==> CarriedAt(p, old(ix.rows), vecs0, ix.rows, ix.vecs)
    ensures !fate.Untouched? && (err.Some? ==> Fails(fate, p, view, ix.linked, old(ix.rows), vecs0, ix.rows, ix.vecs))
    ensures Blamed(old(ix.faults), ix.faults, err.Some?) && TriedToUndo(fate, old(ix.faults), ix.faults)
    ensures ix.linked && ExactAt(old(ix.rows), vecs0, p) ==>
      Explained(fate, err.Some?, p, view, old(ix.rows), vecs0, ix.rows, ix.vecs, ix.journal)
  {
    var row := Row(view.mtime, view.size, |newDocIds|, newDocIds, Some(view.content));
    ghost var mid := ix.vecs;
    err, fate := CommitRow(ix, p, row, old_);
    if ix.linked && ExactAt(old(ix.rows), vecs0, p) {
      if fate.TakenBack? {
        TakenBackIsExplained(fate.told, fate.undo, p, view, ix.rows, vecs0, mid, newDocIds, ix.vecs, ix.journal);
      } else {
        PublishedIsExplained(fate.journaled, err.Some?, p, view, row, old(ix.rows), vecs0, ix.vecs, ix.journal);
      }
    }
    if ix.linked && StoredAt(old(ix.rows), vecs0, p) && err.None? {
      UpdateCarries(p, row, old(ix.rows), vecs0, ix.vecs);
    }
  }

  /** What a race leaves behind: a file that changes between hashing and chunking gets a row
      that a later run over the hashed bytes keeps, although a rebuild then would write
      another one, exactly when the chunks differ. */
  lemma RaceSticksIff(p: Path, race: FileView, later: FileView)
    requires race.Readable? && Expected(p, race).Some?
    requires later == race.(chunked := Some(race.content))
    ensures Unchanged(Expected(p, race).value, later)
    ensures Expected(p, race) != Expected(p, later) <==> race.chunked.value.chunks != race.content.chunks
    ensures RowConsistent(p, Expected(p, race).value) <==> race.chunked.value.chunks == race.content.chunks
  {
    var c := race.chunked.value;
    if IdsOf(p, c) == IdsOf(p, race.content) {
      assert forall i | 0 <= i < |c.chunks| :: IdsOf(p, c)[i].chunk == c.chunks[i];
      assert forall i | 0 <= i < |race.content.chunks| :: IdsOf(p, race.content)[i].chunk == race.content.chunks[i];
      assert c.chunks == race.content.chunks;
    }
  }

  // --- the run ---------------------------------------------------------------

  /** The manifest a build from scratch leaves behind for these files. */
  ghost predicate IsRebuild(rows: map<Path, Row>, files: seq<Path>, view: map<Path, FileView>)
    requires forall p | p in files :: p in view
  {
    forall p :: RowAt(rows, p) == if p in files then Expected(p, view[p]) else None
  }

  /** Where every stored id was in a row, it is exact to carry over the rest. */
  lemma CarriedIsExactIff(rows0: map<Path, Row>, vecs0: set<DocId>, rows: map<Path, Row>, vecs: set<DocId>)
    requires Carried(rows0, vecs0, rows, vecs)
    ensures Exact(rows, vecs) <==> forall d | d in vecs0 && d !in RowIds(rows0, d.path) :: d in RowIds(rows, d.path)
    ensures Exact(rows0, vecs0) ==> Exact(rows, vecs)
  {
    if forall d | d in vecs0 && d !in RowIds(rows0, d.path) :: d in RowIds(rows, d.path) {
      forall d: DocId ensures d in vecs <==> d in RowIds(rows, d.path) {
      }
    }
    if Exact(rows, vecs) {
      forall d | d in vecs0 && d !in RowIds(rows0, d.path) ensures d in RowIds(rows, d.path) {
        assert d in vecs;
      }
    }
  }

  /** The file loop. A file that vanished is purged; other per-file errors are counted. */
  method IndexFiles(ix: Index, files: seq<Path>, view: map<Path, FileView>, batchSize: int)
    returns (err: Option<Err>, filesFailed: nat, discovered: set<Path>, ends: seq<FileEnd>)
    requires ix.Valid() && Legal(ix.trace) && RowsOwn(ix.rows)
    requires Now(ix.trace).settled && Now(ix.trace).touched == {}
    requires (forall p | p in files :: p in view) && Distinct(files)
    modifies ix
    ensures ix.Valid() && Legal(ix.trace) && CrashPoint(old(ix.trace), ix.trace)
    ensures RowsOwn(ix.rows) && Now(ix.trace).clean == old(Now(ix.trace)).clean
    ensures AllSteady(files, view) ==> Now(ix.trace).steady == old(Now(ix.trace)).steady
    ensures forall p | p in discovered :: p in files
    ensures |ends| <= |files| && (err.None? ==> |ends| == |files|) && filesFailed == Failures(ends)
    ensures AllLeave(ends, files, view, ix.linked, old(ix.rows), old(ix.vecs), ix.rows, ix.vecs)
    ensures forall k | 0 <= k < |ends| :: files[k] in discovered <==> !ends[k].Purged?
    ensures err.None? ==> RestAsBefore(files, old(ix.rows), old(ix.vecs), ix.rows, ix.vecs)
    ensures EndsAsViewed(err, ends, files, view, old(ix.faults), ix.faults)
  {
    filesFailed, discovered, ends := 0, {}, [];
    for i := 0 to |files|
      invariant ix.Valid() && Legal(ix.trace) && CrashPoint(old(ix.trace), ix.trace)
      invariant RowsOwn(ix.rows) && |ends| == i && filesFailed == Failures(ends)
      invariant InLoop(old(Now(ix.trace)), Now(ix.trace), files[..i], discovered, AllSteady(files, view))
      invariant Accounted(ends, files, view, ix.linked, old(ix.rows), old(ix.vecs), ix.rows, ix.vecs, discovered)
      invariant EndsAsViewed(None, ends, files, view, old(ix.faults), ix.faults)
    {
      var stopped := ix.Disturbed();
      if stopped {
        return Some(Abort), filesFailed, discovered, ends;
      }
      var e;
      e, discovered, ends := Turn(ix, files, view, batchSize, discovered, ends, old(ix.trace),
                                  old(ix.rows), old(ix.vecs), old(ix.faults));
      if e == Some(Abort) {
        return e, filesFailed, discovered, ends;
      }
      if e.Some? {
        filesFailed := filesFailed + 1;
      }
    }
    assert files[..|files|] == files;
    err := None;
  }

  /** Without a failed file, with files that do not change and rows that have their vectors, the
      rows are those of a rebuild and what no row recorded is carried over. */
  lemma GoodTurnsRebuild(ends: seq<FileEnd>, files: seq<Path>, view: map<Path, FileView>, rows0: map<Path, Row>, vecs0: set<DocId>,
                         rows: map<Path, Row>, vecs: set<DocId>)
    requires |ends| == |files| && (forall p | p in files :: p in view) && AllLeave(ends, files, view, true, rows0, vecs0, rows, vecs)
    requires NothingElse(files, rows0, vecs0, rows, vecs, true) && Failures(ends) == 0
    requires RowsOwn(rows0) && Consistent(rows0) && AllStored(rows0, vecs0) && AllSteady(files, view)
    ensures IsRebuild(rows, files, view) && Carried(rows0, vecs0, rows, vecs)
  {
    forall p | p in files ensures RowAt(rows, p) == Expected(p, view[p]) && CarriedAt(p, rows0, vecs0, rows, vecs) {
      var k :| 0 <= k < |files| && files[k] == p;
      NoneBad(ends, k);
      GoodTurnRebuilds(ends[k], p, view[p], rows0, vecs0, rows, vecs);
    }
    forall d: DocId ensures d in vecs <==> d in RowIds(rows, d.path) || (d in vecs0 && d !in RowIds(rows0, d.path)) {
      if d.path in files {
        assert CarriedAt(d.path, rows0, vecs0, rows, vecs);
      }
    }
  }

  lemma {:induction false} NoneFailed(ends: seq<FileEnd>)
    ensures (forall k | 0 <= k < |ends| :: !ends[k].Bad()) ==> Failures(ends) == 0
  {
    if ends != [] {
      NoneFailed(ends[..|ends| - 1]);
    }
  }

  lemma {:induction false} NoneBad(ends: seq<FileEnd>, k: nat)
    requires Failures(ends) == 0 && k < |ends|
    ensures !ends[k].Bad()
  {
    if k < |ends| - 1 {
      NoneBad(ends[..|ends| - 1], k);
    }
  }

  lemma GoodTurnRebuilds(end: FileEnd, p: Path, view: FileView, rows0: map<Path, Row>, vecs0: set<DocId>, rows: map<Path, Row>,
                         vecs: set<DocId>)
    requires Leaves(end, p, view, true, rows0, vecs0, rows, vecs) && !end.Bad()
    requires RowsOwn(rows0) && Steady(view) && (p in rows0 ==> RowConsistent(p, rows0[p])) && AllStored(rows0, vecs0)
    ensures RowAt(rows, p) == Expected(p, view) && CarriedAt(p, rows0, vecs0, rows, vecs)
  {
    assert StoredAt(rows0, vecs0, p);
    if end.Indexed? && p in rows0 && Unchanged(rows0[p], view) {
      ReindexedIsExpected(rows0, p, view, rows0);
    }
  }

  /** The turns taken have left their files as they say. */
  ghost predicate AllLeave(ends: seq<FileEnd>, files: seq<Path>, view: map<Path, FileView>, linked: bool, rows0: map<Path, Row>,
                           vecs0: set<DocId>, rows: map<Path, Row>, vecs: set<DocId>)
    requires |ends| <= |files| && forall p | p in files :: p in view
  {
    forall k | 0 <= k < |ends| :: Leaves(ends[k], files[k], view[files[k]], linked, rows0, vecs0, rows, vecs)
  }

  ghost predicate RestAsBefore(done: seq<Path>, rows0: map<Path, Row>, vecs0: set<DocId>, rows: map<Path, Row>, vecs: set<DocId>) {
    forall p | p !in done :: RowAt(rows, p) == RowAt(rows0, p) && SameAt(p, vecs0, vecs)
  }

  /** No file stops the run. */
  predicate AllReadable(files: seq<Path>, view: map<Path, FileView>)
    requires forall p | p in files :: p in view
  {
    forall k | 0 <= k < |files| :: view[files[k]] != Unreadable(Abort)
  }

  /** A file that cannot be read. */
  predicate Blocked(view: FileView) { view.Unreadable? && view != Unreadable(NotExist) }

  predicate NoneBlocked(files: seq<Path>, view: map<Path, FileView>)
    requires forall p | p in files :: p in view
  {
    forall k | 0 <= k < |files| :: !Blocked(view[files[k]])
  }

  /** If no operation failed, only what cannot be read did, and the loop stopped only there. */
  ghost predicate EndsAsViewed(err: Option<Err>, ends: seq<FileEnd>, files: seq<Path>, view: map<Path, FileView>, before: nat, after: nat)
    requires |ends| <= |files| && forall p | p in files :: p in view
  {
    && before <= after
    && (after == before ==>
          && (forall k | 0 <= k < |ends| :: ends[k].Bad() <==> Blocked(view[files[k]]))
          && (err.Some? ==> |ends| < |files| && view[files[|ends|]] == Unreadable(Abort)))
  }

  lemma TurnLeavesOthers(ends: seq<FileEnd>, files: seq<Path>, view: map<Path, FileView>, linked: bool, rows0: map<Path, Row>,
                         vecs0: set<DocId>, mid: map<Path, Row>, midVecs: set<DocId>, rows: map<Path, Row>, vecs: set<DocId>, p: Path)
    requires |ends| <= |files| && (forall q | q in files :: q in view) && RowsOwn(rows0) && RowsOwn(mid)
    requires AllLeave(ends, files, view, linked, rows0, vecs0, mid, midVecs) && OnlyPathChanged(p, mid, midVecs, rows, vecs)
    requires forall k | 0 <= k < |ends| :: files[k] != p
    ensures AllLeave(ends, files, view, linked, rows0, vecs0, rows, vecs)
  {
    forall k | 0 <= k < |ends| ensures Leaves(ends[k], files[k], view[files[k]], linked, rows0, vecs0, rows, vecs) {
      LeavesStays(ends[k], files[k], view[files[k]], linked, rows0, vecs0, mid, midVecs, rows, vecs);
    }
  }

  lemma OneMoreEnd(ends: seq<FileEnd>, end: FileEnd, files: seq<Path>, view: map<Path, FileView>, linked: bool, rows0: map<Path, Row>,
                   vecs0: set<DocId>, mid: map<Path, Row>, midVecs: set<DocId>, rows: map<Path, Row>, vecs: set<DocId>,
                   discovered: set<Path>)
    requires |ends| < |files| && (forall q | q in files :: q in view) && RowsOwn(rows0) && RowsOwn(mid)
    requires Accounted(ends, files, view, linked, rows0, vecs0, mid, midVecs, discovered)
    requires forall p | p in discovered :: p in files[..|ends|]
    requires var p := files[|ends|];
      && OnlyPathChanged(p, mid, midVecs, rows, vecs) && Leaves(end, p, view[p], linked, mid, midVecs, rows, vecs)
    requires forall k | 0 <= k < |ends| :: files[k] != files[|ends|]
    ensures Accounted(ends + [end], files, view, linked, rows0, vecs0, rows, vecs,
                      if end.Purged? then discovered else discovered + {files[|ends|]})
  {
    var p := files[|ends|];
    assert files[..|ends + [end]|] == files[..|ends|] + [p] && p !in files[..|ends|];
    TurnLeavesOthers(ends, files, view, linked, rows0, vecs0, mid, midVecs, rows, vecs, p);
    LeavesFrom(end, p, view[p], linked, rows0, vecs0, mid, midVecs, rows, vecs);
  }

  /** Where the loop stands, whatever fails. */
  ghost predicate InLoop(s0: State, s: State, done: seq<Path>, discovered: set<Path>, steady: bool) {
    && s.settled && s.clean == s0.clean && (steady ==> s.steady == s0.steady)
    && (forall p | p in s.touched :: p in done) && (forall p | p in discovered :: p in done)
  }

  /** One turn of the loop. */
  method Turn(ix: Index, files: seq<Path>, view: map<Path, FileView>, batchSize: int, discovered: set<Path>, ends: seq<FileEnd>,
              ghost t0: Trace, ghost rows0: map<Path, Row>, ghost vecs0: set<DocId>, ghost faults0: nat)
    returns (err: Option<Err>, discovered': set<Path>, ends': seq<FileEnd>)
    requires ix.Valid() && Legal(ix.trace) && Distinct(files) && |ends| < |files| && forall p | p in files :: p in view
    requires CrashPoint(t0, ix.trace) && InLoop(Now(t0), Now(ix.trace), files[..|ends|], discovered, AllSteady(files, view))
    requires RowsOwn(rows0) && RowsOwn(ix.rows)
    requires Accounted(ends, files, view, ix.linked, rows0, vecs0, ix.rows, ix.vecs, discovered)
    requires EndsAsViewed(None, ends, files, view, faults0, ix.faults)
    modifies ix
    ensures ix.Valid() && Legal(ix.trace) && CrashPoint(t0, ix.trace)
    ensures InLoop(Now(t0), Now(ix.trace), files[..|ends| + 1], discovered', AllSteady(files, view))
    ensures RowsOwn(ix.rows)
    ensures if err == Some(Abort) then ends' == ends else
      && |ends'| == |ends| + 1 && Failures(ends') == Failures(ends) + Fault(err.Some?)
      && Accounted(ends', files, view, ix.linked, rows0, vecs0, ix.rows, ix.vecs, discovered')
    ensures AllLeave(ends', files, view, ix.linked, rows0, vecs0, ix.rows, ix.vecs)
    ensures forall k | 0 <= k < |ends'| :: files[k] in discovered' <==> !ends'[k].Purged?
    ensures EndsAsViewed(if err == Some(Abort) then err else None, ends', files, view, faults0, ix.faults)
  {
    var p := files[|ends|];
    ghost var rows, vecs, faults := ix.rows, ix.vecs, ix.faults;
    assert files[..|ends| + 1] == files[..|ends|] + [p];
    var end;
    err, end := IndexOrPurge(ix, p, view[p], batchSize);
    discovered' := if end.Purged? then discovered else discovered + {p};
    CrashPointTransitive(t0, old(ix.trace), ix.trace);
    ends' := ends;
    if err == Some(Abort) {
      TurnLeavesOthers(ends, files, view, ix.linked, rows0, vecs0, rows, vecs, ix.rows, ix.vecs, p);
    } else {
      OneMoreEnd(ends, end, files, view, ix.linked, rows0, vecs0, rows, vecs, ix.rows, ix.vecs, discovered);
      OneMoreViewed(ends, end, files, view, faults0, faults, ix.faults);
      ends' := ends + [end];
    }
  }

  lemma OneMoreViewed(ends: seq<FileEnd>, end: FileEnd, files: seq<Path>, view: map<Path, FileView>, faults0: nat, before: nat, after: nat)
    requires |ends| < |files| && (forall q | q in files :: q in view) && EndsAsViewed(None, ends, files, view, faults0, before)
    requires before <= after && (after == before ==> (end.Bad() <==> Blocked(view[files[|ends|]])))
    ensures EndsAsViewed(None, ends + [end], files, view, faults0, after)
    ensures Failures(ends + [end]) == Failures(ends) + Fault(end.Bad())
  {
    assert (ends + [end])[..|ends|] == ends;
  }

  ghost predicate Distinct(files: seq<Path>) { forall i, j | 0 <= i < j < |files| :: files[i] != files[j] }

  /** The turns taken, and the files not reached. */
  ghost predicate Accounted(ends: seq<FileEnd>, files: seq<Path>, view: map<Path, FileView>, linked: bool, rows0: map<Path, Row>,
                            vecs0: set<DocId>, rows: map<Path, Row>, vecs: set<DocId>, discovered: set<Path>)
    requires |ends| <= |files| && forall p | p in files :: p in view
  {
    && AllLeave(ends, files, view, linked, rows0, vecs0, rows, vecs)
    && RestAsBefore(files[..|ends|], rows0, vecs0, rows, vecs)
    && forall k | 0 <= k < |ends| :: files[k] in discovered <==> !ends[k].Purged?
  }

  /** What a run relies on to end with a rebuild: consistent rows that all have their
      vectors, and files that do not change under it. */
  ghost predicate Ready(ix: Index, files: seq<Path>, view: map<Path, FileView>)
    requires forall p | p in files :: p in view
    reads ix
  {
    Consistent(ix.rows) && AllStored(ix.rows, ix.vecs) && AllSteady(files, view)
  }

  /** One turn of the loop: a file that had vanished is purged. A purge that fails is counted
      like any other failure of a file. */
  method IndexOrPurge(ix: Index, p: Path, view: FileView, batchSize: int) returns (err: Option<Err>, end: FileEnd)
    requires ix.Valid() && Legal(ix.trace) && Now(ix.trace).settled && p !in Now(ix.trace).touched
    requires RowsOwn(ix.rows)
    modifies ix
    ensures ix.Valid() && Legal(ix.trace) && CrashPoint(old(ix.trace), ix.trace)
    ensures Now(ix.trace).settled && Now(ix.trace).clean == old(Now(ix.trace)).clean
    ensures Steady(view) ==> Now(ix.trace).steady == old(Now(ix.trace)).steady
    ensures Now(ix.trace).touched <= old(Now(ix.trace)).touched + {p}
    ensures RowsOwn(ix.rows) && OnlyPathChanged(p, old(ix.rows), old(ix.vecs), ix.rows, ix.vecs)
    ensures err != Some(Abort) ==>
      (err.Some? <==> end.Bad()) && Leaves(end, p, view, ix.linked, old(ix.rows), old(ix.vecs), ix.rows, ix.vecs)
    ensures old(ix.faults) <= ix.faults
    ensures ix.faults == old(ix.faults) ==> (err.Some? <==> Blocked(view)) && !end.Unpurged?
    ensures err.Some? && ix.faults == old(ix.faults) ==> view == Unreadable(err.value)
  {
    var fate;
    err, fate := IndexFile(ix, p, view, batchSize);
    assert err.Some? ==> err.value.NotExist? || err.value.Skippable? || err.value.Abort?;
    end := if err.None? then Indexed(fate) else FileEnd.Failed(fate);
    if err == Some(NotExist) {
      ghost var before := ix.trace;
      var e := PurgeRemovedFile(ix, p);
      CrashPointTransitive(old(ix.trace), before, ix.trace);
      end := if e.None? then Purged else Unpurged;
      err := if e.None? then None else Some(Skippable);
    }
  }

  /** Drops the vectors and the row of a file that vanished during the run. */
  method PurgeRemovedFile(ix: Index, p: Path) returns (err: Option<Err>)
    requires ix.Valid() && Legal(ix.trace) && RowsOwn(ix.rows)
    modifies ix
    ensures ix.Valid() && Legal(ix.trace) && CrashPoint(old(ix.trace), ix.trace)
    ensures Stands(old(Now(ix.trace)), Now(ix.trace))
    ensures RowsOwn(ix.rows) && OnlyPathChanged(p, old(ix.rows), old(ix.vecs), ix.rows, ix.vecs)
    ensures ix.rows == old(ix.rows) || ix.rows == old(ix.rows) - {p}
    ensures err.None? ==> ix.rows == old(ix.rows) - {p}
    ensures err.None? && ix.linked ==> ix.vecs == old(ix.vecs) - RowIds(old(ix.rows), p)
    ensures err.Some? ==> ix.rows == old(ix.rows)
    ensures old(ix.vecs) - RowIds(old(ix.rows), p) <= ix.vecs <= old(ix.vecs)
    ensures ix.faults == old(ix.faults) + Fault(err.Some?)
  {
    var old_, failed := ix.ManifestGet(p);
    if failed {
      return Some(Abort);
    }
    if old_.None? {
      assert ix.rows - {p} == ix.rows;
      return None;
    }
    err := RemovePath(ix, p, old_);
  }

  /** Nothing of a discovered path has changed; of others nothing is left but what no row
      recorded. */
  ghost predicate Pruned(discovered: set<Path>, rows0: map<Path, Row>, vecs0: set<DocId>, rows: map<Path, Row>, vecs: set<DocId>,
                         done: bool) {
    && (forall p | p in discovered :: RowAt(rows, p) == RowAt(rows0, p) && SameAt(p, vecs0, vecs))
    && (forall d: DocId :: (d in vecs ==> d in vecs0) && (d in vecs0 && d !in RowIds(rows0, d.path) ==> d in vecs))
    && (done ==> forall d: DocId | d.path !in discovered :: d in vecs <==> d in vecs0 && d !in RowIds(rows0, d.path))
  }

  ghost predicate Pruning(todo: set<Path>, discovered: set<Path>, rows0: map<Path, Row>, vecs0: set<DocId>, rows: map<Path, Row>,
                          vecs: set<DocId>, linked: bool) {
    && Pruned(discovered, rows0, vecs0, rows, vecs, false)
    && (forall p | p in todo :: RowAt(rows, p) == RowAt(rows0, p))
    && (forall p | p !in todo && p !in discovered :: p !in rows)
    && (linked ==> forall d: DocId | d.path !in discovered && d.path !in todo :: d in vecs <==> d in vecs0 && d !in RowIds(rows0, d.path))
  }

  lemma OnePruned(p: Path, todo: set<Path>, discovered: set<Path>, rows0: map<Path, Row>, vecs0: set<DocId>, mid: map<Path, Row>,
                  midVecs: set<DocId>, rows: map<Path, Row>, vecs: set<DocId>, linked: bool, gone: bool)
    requires p in todo && todo == mid.Keys - discovered && RowsOwn(mid)
    requires Pruning(todo, discovered, rows0, vecs0, mid, midVecs, linked)
    requires midVecs - RowIds(mid, p) <= vecs <= midVecs && rows == if gone then mid - {p} else mid
    requires gone && linked ==> vecs == midVecs - RowIds(mid, p)
    ensures if gone then Pruning(todo - {p}, discovered, rows0, vecs0, rows, vecs, linked)
            else Pruned(discovered, rows0, vecs0, rows, vecs, false)
  {
    forall d: DocId ensures (d in vecs ==> d in vecs0) && (d in vecs0 && d !in RowIds(rows0, d.path) ==> d in vecs) {
      assert RowAt(mid, p) == RowAt(rows0, p);
      assert d in RowIds(mid, p) ==> d.path == p;
    }
  }

  /** Removes the rows of paths the scan no longer finds. */
  method PruneUndiscovered(ix: Index, discovered: set<Path>) returns (err: Option<Err>)
    requires ix.Valid() && Legal(ix.trace) && RowsOwn(ix.rows)
    modifies ix
    ensures ix.Valid() && Legal(ix.trace) && CrashPoint(old(ix.trace), ix.trace)
    ensures RowsOwn(ix.rows) && Stands(old(Now(ix.trace)), Now(ix.trace))
    ensures err.None? ==> forall p :: RowAt(ix.rows, p) == if p in discovered then RowAt(old(ix.rows), p) else None
    ensures forall p | p in ix.rows :: p in old(ix.rows)
    ensures Pruned(discovered, old(ix.rows), old(ix.vecs), ix.rows, ix.vecs, err.None? && ix.linked)
    ensures Blamed(old(ix.faults), ix.faults, err.Some?)
  {
    var todo := ix.rows.Keys - discovered;
    while todo != {}
      invariant ix.Valid() && Legal(ix.trace) && CrashPoint(old(ix.trace), ix.trace)
      invariant RowsOwn(ix.rows) && Stands(old(Now(ix.trace)), Now(ix.trace)) && ix.faults == old(ix.faults)
      invariant todo == ix.rows.Keys - discovered && ix.rows.Keys <= old(ix.rows).Keys
      invariant Pruning(todo, discovered, old(ix.rows), old(ix.vecs), ix.rows, ix.vecs, ix.linked)
      decreases todo
    {
      var p :| p in todo;
      ghost var before, rows, vecs := ix.trace, ix.rows, ix.vecs;
      err := RemovePath(ix, p, Some(ix.rows[p]));
      CrashPointTransitive(old(ix.trace), before, ix.trace);
      OnePruned(p, todo, discovered, old(ix.rows), old(ix.vecs), rows, vecs, ix.rows, ix.vecs, ix.linked, err.None?);
      if err.Some? {
        return;
      }
      todo := todo - {p};
    }
    err := None;
  }

  /** Opens the journal and replays it; false when the journal cannot be opened. A replay
      that ends with an empty journal has deleted everything that was pending. */
  method BeginRun(ix: Index) returns (ready: bool)
    requires ix.Valid() && Legal(ix.trace)
    modifies ix
    ensures ix.Valid() && Legal(ix.trace) && CrashPoint(old(ix.trace), ix.trace)
    ensures ix.rows == old(ix.rows) && Now(ix.trace).steady == old(Now(ix.trace)).steady
    ensures ready ==> Now(ix.trace).settled && Now(ix.trace).touched == {}
    ensures Now(ix.trace).clean ==> old(Now(ix.trace)).clean
    ensures AfterReplay(old(ix.vecs), old(ix.journal), ix.vecs, ready && ix.linked && Now(ix.trace).clean)
    ensures Blamed(old(ix.faults), ix.faults, !ready)
    ensures ix.faults == old(ix.faults) ==> Now(ix.trace).clean == old(Now(ix.trace)).clean
  {
    ix.trace := Then(ix.trace, RunBegan);
    ghost var began := ix.trace;
    ready := ix.JournalOpen();
    CrashPointTransitive(old(ix.trace), began, ix.trace);
    if !ready {
      return;
    }
    ghost var before := ix.trace;
    ReconcileCleanupJournal(ix);
    CrashPointTransitive(old(ix.trace), before, ix.trace);
    ix.trace := Then(ix.trace, ReplayEnded);
  }

  /** A replay deletes pending ids only, and all of them if it settled. */
  ghost predicate AfterReplay(vecs0: set<DocId>, journal: Option<seq<DocId>>, vecs: set<DocId>, settled: bool) {
    && vecs0 - SetOf(Pending(journal)) <= vecs <= vecs0
    && (settled ==> vecs == vecs0 - SetOf(Pending(journal)))
  }

  /**
   A non-force run. Whatever fails, every write it makes is one the protocol allows,
   so all its crash points are covered by `IndexProtocol`. When nothing failed, the
   rows are those of a build from scratch of the same files, and the store holds their
   vectors and besides them only what was stored before in no row and not replayed.
   Whatever failed, each file that was reached is left as `ends` says: one that could not be
   read keeps its row and vectors. And a run in which no operation failed ends well, except
   for files that cannot be read. `replayed` is the store after the journal replay.
   */
  method Run(ix: Index, files: seq<Path>, view: map<Path, FileView>, batchSize: int)
    returns (err: Option<Err>, filesFailed: nat, ends: seq<FileEnd>, ghost replayed: set<DocId>)
    requires ix.Valid() && Legal(ix.trace) && RowsOwn(ix.rows)
    requires (forall p | p in files :: p in view) && Distinct(files)
    modifies ix
    ensures ix.Valid() && Legal(ix.trace) && CrashPoint(old(ix.trace), ix.trace) && RowsOwn(ix.rows)
    ensures AllSteady(files, view) ==> Now(ix.trace).steady == old(Now(ix.trace)).steady
    ensures Now(ix.trace).clean ==> old(Now(ix.trace)).clean
    ensures AfterReplay(old(ix.vecs), old(ix.journal), replayed, err.None? && ix.linked && Now(ix.trace).clean)
    ensures err.None? && filesFailed == 0 && ix.linked && old(Ready(ix, files, view) && JournalDead(Now(ix.trace))) ==>
      && IsRebuild(ix.rows, files, view) && Carried(old(ix.rows), replayed, ix.rows, ix.vecs)
      && (old(Exact(ix.rows, ix.vecs)) ==> Exact(ix.rows, ix.vecs))
    ensures |ends| <= |files| && (err.None? ==> |ends| == |files|) && filesFailed == Failures(ends)
    ensures AllLeave(ends, files, view, ix.linked, old(ix.rows), replayed, ix.rows, ix.vecs)
    ensures err.None? ==> NothingElse(files, old(ix.rows), replayed, ix.rows, ix.vecs, ix.linked)
    ensures forall k | 0 <= k < |ends| && SparesItsFile(ends[k], view[files[k]]) ::
      FileStands(files[k], old(ix.rows), old(ix.vecs), old(ix.journal), ix.rows, ix.vecs)
    ensures old(ix.faults) <= ix.faults && (ix.faults == old(ix.faults) ==>
      && (err.Some? <==> !AllReadable(files, view))
      && (forall k | 0 <= k < |ends| :: ends[k].Bad() <==> Blocked(view[files[k]]))
      && (NoneBlocked(files, view) ==> err.None? && filesFailed == 0)
      && Now(ix.trace).clean == old(Now(ix.trace)).clean)
  {
    ghost var fit := Ready(ix, files, view) && JournalDead(Now(ix.trace));
    var ready := BeginRun(ix);
    replayed := ix.vecs;
    if !ready {
      return Some(Abort), 0, [], replayed;
    }
    if fit {
      ReplayKeepsRows(old(Now(ix.trace)), ix.vecs);
    }
    ghost var before := ix.trace;
    err, filesFailed, ends := IndexAndPrune(ix, files, view, batchSize);
    CrashPointTransitive(old(ix.trace), before, ix.trace);
    NoneFailed(ends);
    SparedFilesStand(ends, files, view, ix.linked, old(ix.rows), old(ix.vecs), old(ix.journal), replayed, ix.rows, ix.vecs);
    if err.None? && ix.linked && fit && filesFailed == 0 {
      GoodTurnsRebuild(ends, files, view, old(ix.rows), replayed, ix.rows, ix.vecs);
      CarriedIsExactIff(old(ix.rows), replayed, ix.rows, ix.vecs);
    }
  }

  /** The file could not be read, or its update was taken back. */
  predicate SparesItsFile(end: FileEnd, view: FileView) {
    view == Unreadable(Skippable) || (end.Failed? && end.fate.TakenBack?)
  }

  /** The row is as it was, and has lost at most vectors that the journal named. */
  ghost predicate FileStands(p: Path, rows0: map<Path, Row>, vecs0: set<DocId>, journal: Option<seq<DocId>>, rows: map<Path, Row>,
                             vecs: set<DocId>) {
    && RowAt(rows, p) == RowAt(rows0, p)
    && forall d | d in RowIds(rows0, p) && d in vecs0 && d !in Pending(journal) :: d in vecs
  }

  lemma SparedFilesStand(ends: seq<FileEnd>, files: seq<Path>, view: map<Path, FileView>, linked: bool, rows0: map<Path, Row>,
                         vecs0: set<DocId>, journal: Option<seq<DocId>>, replayed: set<DocId>, rows: map<Path, Row>, vecs: set<DocId>)
    requires |ends| <= |files| && (forall p | p in files :: p in view) && RowsOwn(rows0)
    requires AllLeave(ends, files, view, linked, rows0, replayed, rows, vecs) && AfterReplay(vecs0, journal, replayed, false)
    ensures forall k | 0 <= k < |ends| && SparesItsFile(ends[k], view[files[k]]) :: FileStands(files[k], rows0, vecs0, journal, rows, vecs)
  {
    forall k | 0 <= k < |ends| && SparesItsFile(ends[k], view[files[k]])
      ensures FileStands(files[k], rows0, vecs0, journal, rows, vecs) {
      assert Leaves(ends[k], files[k], view[files[k]], linked, rows0, replayed, rows, vecs);
      forall d | d in RowIds(rows0, files[k]) && d in vecs0 && d !in Pending(journal) ensures d in vecs {
        assert d in vecs0 - SetOf(Pending(journal));
        assert d.path == files[k];
      }
    }
  }

  /** The file loop and the pruning. */
  method IndexAndPrune(ix: Index, files: seq<Path>, view: map<Path, FileView>, batchSize: int)
    returns (err: Option<Err>, filesFailed: nat, ends: seq<FileEnd>)
    requires ix.Valid() && Legal(ix.trace) && RowsOwn(ix.rows)
    requires Now(ix.trace).settled && Now(ix.trace).touched == {}
    requires (forall p | p in files :: p in view) && Distinct(files)
    modifies ix
    ensures ix.Valid() && Legal(ix.trace) && CrashPoint(old(ix.trace), ix.trace)
    ensures RowsOwn(ix.rows) && Now(ix.trace).clean == old(Now(ix.trace)).clean
    ensures AllSteady(files, view) ==> Now(ix.trace).steady == old(Now(ix.trace)).steady
    ensures |ends| <= |files| && (err.None? ==> |ends| == |files|) && filesFailed == Failures(ends)
    ensures AllLeave(ends, files, view, ix.linked, old(ix.rows), old(ix.vecs), ix.rows, ix.vecs)
    ensures err.None? ==> NothingElse(files, old(ix.rows), old(ix.vecs), ix.rows, ix.vecs, ix.linked)
    ensures EndsAsViewed(err, ends, files, view, old(ix.faults), ix.faults)
  {
    var discovered;
    err, filesFailed, discovered, ends := IndexFiles(ix, files, view, batchSize);
    if err.Some? {
      return;
    }
    ghost var before, rows, vecs := ix.trace, ix.rows, ix.vecs;
    err := PruneUndiscovered(ix, discovered);
    CrashPointTransitive(old(ix.trace), before, ix.trace);
    PruneLeaves(ends, files, view, ix.linked, discovered, old(ix.rows), old(ix.vecs), rows, vecs, ix.rows, ix.vecs, err.None?);
  }

  /** Of paths that were not found nothing is left but what no row recorded. */
  ghost predicate NothingElse(files: seq<Path>, rows0: map<Path, Row>, vecs0: set<DocId>, rows: map<Path, Row>, vecs: set<DocId>,
                              linked: bool) {
    && (forall p | p in rows :: p in files)
    && (linked ==> forall d: DocId | d.path !in files :: d in vecs <==> d in vecs0 && d !in RowIds(rows0, d.path))
  }

  /** Pruning takes nothing from a file that was found and not purged. */
  lemma PruneLeaves(ends: seq<FileEnd>, files: seq<Path>, view: map<Path, FileView>, linked: bool, discovered: set<Path>,
                    rows0: map<Path, Row>, vecs0: set<DocId>, mid: map<Path, Row>, midVecs: set<DocId>, rows: map<Path, Row>,
                    vecs: set<DocId>, done: bool)
    requires |ends| == |files| && (forall p | p in files :: p in view) && RowsOwn(rows0) && RowsOwn(mid)
    requires AllLeave(ends, files, view, linked, rows0, vecs0, mid, midVecs) && RestAsBefore(files, rows0, vecs0, mid, midVecs)
    requires forall k | 0 <= k < |ends| :: files[k] in discovered <==> !ends[k].Purged?
    requires (forall p | p in discovered :: p in files) && Pruned(discovered, mid, midVecs, rows, vecs, done && linked)
    requires forall p | p in rows :: p in mid
    requires done ==> forall p :: RowAt(rows, p) == if p in discovered then RowAt(mid, p) else None
    ensures AllLeave(ends, files, view, linked, rows0, vecs0, rows, vecs)
    ensures done ==> NothingElse(files, rows0, vecs0, rows, vecs, linked)
  {
    forall k | 0 <= k < |ends| ensures Leaves(ends[k], files[k], view[files[k]], linked, rows0, vecs0, rows, vecs) {
      var p := files[k];
      assert Leaves(ends[k], p, view[p], linked, rows0, vecs0, mid, midVecs);
      if ends[k].Purged? {
        forall d: DocId | d.path == p ensures d in vecs <==> d in midVecs {
          assert d !in RowIds(mid, p);
        }
      }
      assert RowAt(rows, p) == RowAt(mid, p) && SameAt(p, midVecs, vecs);
      LeavesStays(ends[k], p, view[p], linked, rows0, vecs0, mid, midVecs, rows, vecs);
    }
    if done {
      forall p | p in rows ensures p in files {
        assert RowAt(rows, p).Some?;
      }
      if linked {
        forall d: DocId | d.path !in files ensures d in vecs <==> d in vecs0 && d !in RowIds(rows0, d.path) {
          assert RowAt(mid, d.path) == RowAt(rows0, d.path) && SameAt(d.path, vecs0, midVecs);
        }
      }
    }
  }

  /** Replaying a journal that names no committed id leaves every row its vectors. */
  lemma ReplayKeepsRows(s: State, vecs: set<DocId>)
    requires JournalDead(s) && AllStored(s.disk.rows, s.disk.vecs)
    requires s.disk.vecs - SetOf(Pending(s.disk.journal)) <= vecs <= s.disk.vecs
    ensures AllStored(s.disk.rows, vecs)
    ensures Exact(s.disk.rows, s.disk.vecs) ==> Exact(s.disk.rows, vecs)
  {
    forall d: DocId | d in RowIds(s.disk.rows, d.path) ensures d in vecs {
      assert d !in Pending(s.disk.journal);
      assert d in s.disk.vecs - SetOf(Pending(s.disk.journal));
    }
    if Exact(s.disk.rows, s.disk.vecs) {
      forall d: DocId ensures d in vecs <==> d in RowIds(s.disk.rows, d.path) {
        assert d in s.disk.vecs <==> d in RowIds(s.disk.rows, d.path);
      }
    }
  }

  lemma RebuildIsUnique(a: map<Path, Row>, avecs: set<DocId>, b: map<Path, Row>, bvecs: set<DocId>,
                        files: seq<Path>, view: map<Path, FileView>)
    requires forall p | p in files :: p in view
    requires IsRebuild(a, files, view) && Exact(a, avecs)
    requires IsRebuild(b, files, view) && Exact(b, bvecs)
    ensures a == b && avecs == bvecs
  {
    forall p ensures p in a <==> p in b
      ensures p in a ==> a[p] == b[p]
    {
      assert RowAt(a, p) == RowAt(b, p);
    }
    forall d: DocId ensures d in avecs <==> d in bvecs {
      assert d in avecs <==> d in RowIds(a, d.path);
      assert d in bvecs <==> d in RowIds(b, d.path);
    }
  }

  /** How a run ended. */
  datatype RunEnd = RunEnd(err: Option<Err>, failed: nat) {
    predicate Good() { err.None? && failed == 0 }
  }

  /** Incremental indexing refines a rebuild: the same files indexed over an existing
      index and into a new one end with the same rows and the same vectors. */
  method IncrementalMatchesRebuild(ix: Index, files: seq<Path>, view: map<Path, FileView>, batchSize: int)
    returns (same: bool, scratch: Index, over: RunEnd, anew: RunEnd)
    requires ix.Valid() && Legal(ix.trace) && RowsOwn(ix.rows) && ix.linked
    requires (forall p | p in files :: p in view) && Distinct(files)
    requires Ready(ix, files, view) && Exact(ix.rows, ix.vecs) && JournalDead(Now(ix.trace))
    modifies ix
    ensures fresh(scratch)
    ensures same <==> over.Good() && anew.Good()
    ensures over.Good() ==> IsRebuild(ix.rows, files, view) && Exact(ix.rows, ix.vecs)
    ensures anew.Good() ==> IsRebuild(scratch.rows, files, view) && Exact(scratch.rows, scratch.vecs)
    ensures same ==> ix.rows == scratch.rows && ix.vecs == scratch.vecs
    ensures ix.faults == old(ix.faults) && scratch.faults == 0 && NoneBlocked(files, view) ==> same
  {
    var err, failed, _, _ := Run(ix, files, view, batchSize);
    scratch := new Index.Create(true);
    var err', failed', _, _ := Run(scratch, files, view, batchSize);
    over, anew := RunEnd(err, failed), RunEnd(err', failed');
    same := over.Good() && anew.Good();
    if same {
      RebuildIsUnique(ix.rows, ix.vecs, scratch.rows, scratch.vecs, files, view);
    }
  }

  // --- many runs -----------------------------------------------------------------

  /** The files that one run finds. */
  datatype Scan = Scan(files: seq<Path>, view: map<Path, FileView>)

  ghost predicate Proper(s: Scan) {
    && (forall p | p in s.files :: p in s.view)
    && (forall i, j | 0 <= i < j < |s.files| :: s.files[i] != s.files[j])
    && AllSteady(s.files, s.view)
  }

  ghost predicate IsRebuildOf(rows: map<Path, Row>, s: Scan) { Proper(s) && IsRebuild(rows, s.files, s.view) }

  predicate AllGood(outcomes: seq<RunEnd>) { forall i | 0 <= i < |outcomes| :: outcomes[i].Good() }

  /** Run after run: when none failed and every replay settled, the stores are exactly a
      rebuild of the files of the last one, ready for the next. */
  method Runs(ix: Index, scans: seq<Scan>, batchSize: int) returns (ok: bool, outcomes: seq<RunEnd>)
    requires ix.Valid() && Legal(ix.trace) && Inv(Origin(ix.trace)) && ix.linked
    requires Now(ix.trace).steady && Exact(ix.rows, ix.vecs) && forall s | s in scans :: Proper(s)
    modifies ix
    ensures ix.Valid() && Legal(ix.trace) && CrashPoint(old(ix.trace), ix.trace) && Inv(Origin(ix.trace))
    ensures |outcomes| == |scans| && (ok <==> AllGood(outcomes))
    ensures ok && Now(ix.trace).clean ==>
      && Now(ix.trace).steady && Exact(ix.rows, ix.vecs) && JournalDead(Now(ix.trace))
      && (scans != [] ==> IsRebuildOf(ix.rows, scans[|scans| - 1]))
    ensures old(ix.faults) <= ix.faults
    ensures ix.faults == old(ix.faults) && (forall s | s in scans :: Proper(s) && NoneBlocked(s.files, s.view)) ==>
      ok && Now(ix.trace).clean == old(Now(ix.trace)).clean
  {
    ok, outcomes := true, [];
    EveryCrashPointKeepsInv(ix.trace, ix.trace);
    for i := 0 to |scans|
      invariant ix.Valid() && Legal(ix.trace) && CrashPoint(old(ix.trace), ix.trace)
      invariant Inv(Origin(ix.trace)) && Inv(Now(ix.trace)) && Now(ix.trace).steady
      invariant |outcomes| == i && (ok <==> AllGood(outcomes))
      invariant ok && Now(ix.trace).clean ==>
        && Exact(ix.rows, ix.vecs)
        && (i > 0 ==> IsRebuildOf(ix.rows, scans[i - 1]))
      invariant old(ix.faults) <= ix.faults
      invariant ix.faults == old(ix.faults) && (forall s | s in scans :: Proper(s) && NoneBlocked(s.files, s.view)) ==>
        ok && Now(ix.trace).clean == old(Now(ix.trace)).clean
    {
      var scan := scans[i];
      assert scan in scans;
      ghost var before := ix.trace;
      var end := RunScan(ix, scan, batchSize);
      CrashPointTransitive(old(ix.trace), before, ix.trace);
      ghost var ended := outcomes;
      ok, outcomes := ok && end.Good(), outcomes + [end];
      assert outcomes[i] == end && forall k | 0 <= k < i :: outcomes[k] == ended[k];
    }
  }

  /** One of them. */
  method RunScan(ix: Index, scan: Scan, batchSize: int) returns (end: RunEnd)
    requires ix.Valid() && Legal(ix.trace) && Inv(Origin(ix.trace)) && Inv(Now(ix.trace)) && Now(ix.trace).steady && ix.linked
    requires Proper(scan)
    modifies ix
    ensures ix.Valid() && Legal(ix.trace) && CrashPoint(old(ix.trace), ix.trace)
    ensures Inv(Origin(ix.trace)) && Inv(Now(ix.trace)) && Now(ix.trace).steady
    ensures Now(ix.trace).clean ==> old(Now(ix.trace)).clean
    ensures end.Good() && Now(ix.trace).clean && old(Exact(ix.rows, ix.vecs)) ==> Exact(ix.rows, ix.vecs) && IsRebuildOf(ix.rows, scan)
    ensures old(ix.faults) <= ix.faults
    ensures ix.faults == old(ix.faults) ==>
      Now(ix.trace).clean == old(Now(ix.trace)).clean && (NoneBlocked(scan.files, scan.view) ==> end.Good())
  {
    ExactIsStored(ix.rows, ix.vecs);
    var err, failed, _, _ := Run(ix, scan.files, scan.view, batchSize);
    SameOrigin(old(ix.trace), ix.trace);
    EveryCrashPointKeepsInv(ix.trace, ix.trace);
    end := RunEnd(err, failed);
  }

  lemma ExactIsStored(rows: map<Path, Row>, vecs: set<DocId>)
    ensures Exact(rows, vecs) ==> AllStored(rows, vecs)
  {
  }
}
