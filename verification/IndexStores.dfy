/**
 The three stores of an index directory, with every write observable.

 Each write may fail; what a failed write leaves behind is chosen by the
 environment. The ghost trace keeps every write since the directory was created, so
 the state after each single write, and therefore each possible crash point, stays
 available to the specification.
 */
module IndexStores {
  import opened Options
  import opened IndexProtocol

  /** How an error is classified by the run loop (internal/indexer/errors.go). */
  datatype Err = NotExist | Skippable | Abort

  /** The outcome of a batch write or delete in the vector store. */
  datatype WriteResult =
    | Ok
    | Unavailable
    | Partial(succeeded: seq<DocId>, err: Err)
    | FlushFailed(succeeded: seq<DocId>, err: Err)
    | Failed(err: Err)
  {
    predicate Tolerated() { Ok? || Unavailable? }
  }

  /** Why ids are deleted from the store. */
  datatype Reason = Replay | Rollback(path: Path) | Stale(path: Path) | Removal(path: Path)

  function SetOf(ids: seq<DocId>): set<DocId> { set d | d in ids }

  lemma SetOfConcat(a: seq<DocId>, b: seq<DocId>)
    ensures SetOf(a + b) == SetOf(a) + SetOf(b)
  {
    forall d ensures d in SetOf(a + b) <==> d in SetOf(a) + SetOf(b) {
    }
  }

  function Fault(failed: bool): nat { if failed then 1 else 0 }

  class Index {
    var rows: map<Path, Row>
    var vecs: set<DocId>
    var journal: Option<seq<DocId>>
    const linked: bool

    /** Every write since the directory was created, or since an older known state. */
    ghost var trace: Trace

    /** How many operations have failed, here or outside the stores. */
    ghost var faults: nat

    ghost predicate Valid()
      reads this
    {
      Now(trace).disk == Disk(rows, vecs, journal) && Now(trace).linked == linked
    }

    /** A new index directory. */
    constructor Create(linked: bool)
      ensures Valid() && this.linked == linked
      ensures trace.Began? && Fresh(trace.state)
      ensures rows == map[] && vecs == {} && journal == None
    {
      this.linked := linked;
      rows, vecs, journal := map[], {}, None;
      trace := Began(State(Disk(map[], {}, None), {}, {}, false, true, true, linked));
      faults := 0;
    }

    /** The directory as a later process finds it, after a crash or an earlier run. */
    constructor Reopen(linked: bool, rows: map<Path, Row>, vecs: set<DocId>, journal: Option<seq<DocId>>, ghost past: Trace)
      requires Now(past).disk == Disk(rows, vecs, journal) && Now(past).linked == linked
      ensures Valid() && this.linked == linked && trace == past
      ensures this.rows == rows && this.vecs == vecs && this.journal == journal
    {
      this.linked := linked;
      this.rows, this.vecs, this.journal := rows, vecs, journal;
      trace := past;
      faults := 0;
    }

    /** Whatever else may go wrong: a cancelled or stalled run, chunking, embedding. */
    method Disturbed() returns (failed: bool)
      modifies this`faults
      ensures faults == old(faults) + Fault(failed)
    {
      failed := *;
      faults := faults + Fault(failed);
    }

    // --- the manifest --------------------------------------------------------

    method ManifestGet(p: Path) returns (row: Option<Row>, failed: bool)
      modifies this`faults
      ensures faults == old(faults) + Fault(failed)
      ensures !failed ==> row == if p in rows then Some(rows[p]) else None
    {
      failed := *;
      row := if p in rows then Some(rows[p]) else None;
      faults := faults + Fault(failed);
    }

    method ManifestUpsert(p: Path, row: Row) returns (ok: bool)
      requires Valid()
      modifies this
      ensures Valid() && vecs == old(vecs) && journal == old(journal)
      ensures rows == if ok then old(rows)[p := row] else old(rows)
      ensures trace == if ok then Then(old(trace), RowPut(p, row)) else old(trace)
      ensures faults == old(faults) + Fault(!ok)
    {
      ok := *;
      faults := faults + Fault(!ok);
      if ok {
        rows := rows[p := row];
        trace := Then(trace, RowPut(p, row));
      }
    }

    method ManifestDelete(p: Path) returns (ok: bool)
      requires Valid()
      modifies this
      ensures Valid() && vecs == old(vecs) && journal == old(journal)
      ensures rows == if ok then old(rows) - {p} else old(rows)
      ensures trace == if ok then Then(old(trace), RowDropped(p)) else old(trace)
      ensures faults == old(faults) + Fault(!ok)
    {
      ok := *;
      faults := faults + Fault(!ok);
      if ok {
        rows := rows - {p};
        trace := Then(trace, RowDropped(p));
      }
    }

    // --- the vector collection -----------------------------------------------

    /** A failed batch may have stored any part of itself. On a partial failure the
        reported ids are a prefix of the batch, which need not be what was stored. */
    method UpsertChunks(ghost p: Path, batch: seq<DocId>) returns (r: WriteResult)
      requires Valid()
      modifies this
      ensures Valid() && rows == old(rows) && journal == old(journal)
      ensures r.Unavailable? <==> !linked
      ensures old(vecs) <= vecs <= old(vecs) + SetOf(batch)
      ensures r.Ok? ==> vecs == old(vecs) + SetOf(batch)
      ensures r.Unavailable? ==> vecs == old(vecs)
      ensures r.Partial? || r.FlushFailed? ==> r.succeeded <= batch
      ensures !r.Tolerated() ==> r.err != NotExist
      ensures trace == Then(old(trace), VectorsAdded(p, vecs - old(vecs)))
      ensures faults == old(faults) + Fault(!r.Tolerated())
    {
      var added: set<DocId> := {};
      if !linked {
        r := Unavailable;
      } else if * {
        r, added := Ok, SetOf(batch);
      } else {
        var any: set<DocId> := *;
        added := any * SetOf(batch);
        var n: int := *;
        var prefix := if 0 <= n <= |batch| then batch[..n] else batch;
        var skippable: bool := *;
        var err := if skippable then Skippable else Abort;
        if * { r := Partial(prefix, err); } else if * { r := FlushFailed(batch, err); } else { r := Failed(err); }
      }
      ghost var before := vecs;
      vecs := vecs + added;
      trace := Then(trace, VectorsAdded(p, vecs - before));
      faults := faults + Fault(!r.Tolerated());
      assert before + (vecs - before) == vecs;
    }

    ghost function EventFor(why: Reason, removed: set<DocId>): Event {
      match why
      case Replay => Replayed(removed)
      case Rollback(p) => RolledBack(p, removed)
      case Stale(p) => StaleDeleted(p, removed)
      case Removal(p) => VectorsRemoved(p, removed)
    }

    /** Deletes by primary key. A partial failure names ids a fetch has verified as
        gone; a native failure may have deleted any part of the request. */
    method DeleteByIDs(ids: seq<DocId>, ghost why: Reason) returns (r: WriteResult)
      requires Valid()
      modifies this
      ensures Valid() && rows == old(rows) && journal == old(journal)
      ensures r.Unavailable? <==> !linked
      ensures old(vecs) - SetOf(ids) <= vecs <= old(vecs)
      ensures r.Ok? || r.FlushFailed? ==> vecs == old(vecs) - SetOf(ids)
      ensures r.Unavailable? ==> vecs == old(vecs)
      ensures r.Partial? ==> SetOf(r.succeeded) <= SetOf(ids) && SetOf(r.succeeded) !! vecs
      ensures !r.Tolerated() ==> r.err != NotExist
      ensures trace == Then(old(trace), EventFor(why, old(vecs) - vecs))
      ensures faults == old(faults) + Fault(!r.Tolerated())
    {
      var before := vecs;
      var kept: set<DocId> := {};
      var skippable: bool := *;
      var err := if skippable then Skippable else Abort;
      if !linked {
        r, kept := Unavailable, SetOf(ids);
      } else if * {
        r := Ok;
      } else if * {
        r := FlushFailed(ids, err);
      } else {
        kept := *;
        if * {
          r := Failed(err);
        } else {
          var gone: seq<DocId> := [];
          for i := 0 to |ids|
            invariant forall d | d in gone :: d in ids && d !in kept
          {
            if ids[i] !in kept { gone := gone + [ids[i]]; }
          }
          r := Partial(gone, err);
        }
      }
      vecs := vecs - (SetOf(ids) - kept);
      trace := Then(trace, EventFor(why, before - vecs));
      faults := faults + Fault(!r.Tolerated());
      assert before - (before - vecs) == vecs;
    }

    // --- the cleanup journal -------------------------------------------------

    /** Creates the journal file when it is absent. */
    method JournalOpen() returns (ok: bool)
      requires Valid()
      modifies this
      ensures Valid() && rows == old(rows) && vecs == old(vecs)
      ensures journal == if ok && old(journal).None? then Some([]) else old(journal)
      ensures trace == if ok && old(journal).None? then Then(old(trace), JournalOpened) else old(trace)
      ensures faults == old(faults) + Fault(!ok)
    {
      ok := *;
      faults := faults + Fault(!ok);
      if ok && journal.None? {
        journal := Some([]);
        trace := Then(trace, JournalOpened);
      }
    }

    /** Appending opens without creating, so it fails once the file was removed. */
    method JournalAppend(ghost p: Path, ids: seq<DocId>) returns (ok: bool)
      requires Valid()
      modifies this
      ensures Valid() && rows == old(rows) && vecs == old(vecs)
      ensures old(journal).None? && ids != [] ==> !ok
      ensures ids == [] ==> ok
      ensures journal == if ok && ids != [] then Some(Pending(old(journal)) + ids) else old(journal)
      ensures trace == if ok && ids != [] then Then(old(trace), StaleJournaled(p, ids)) else old(trace)
      ensures faults == old(faults) + Fault(!ok && old(journal).Some?)
    {
      if ids == [] { return true; }
      ok := *;
      if journal.None? { ok := false; }
      faults := faults + Fault(!ok && journal.Some?);
      if ok {
        journal := Some(Pending(journal) + ids);
        trace := Then(trace, StaleJournaled(p, ids));
      }
    }

    method JournalPending() returns (ids: seq<DocId>, failed: bool)
      modifies this`faults
      ensures faults == old(faults) + Fault(failed)
      ensures !failed ==> ids == Pending(journal)
    {
      failed := *;
      ids := Pending(journal);
      faults := faults + Fault(failed);
    }

    method JournalClear() returns (ok: bool)
      requires Valid()
      modifies this
      ensures Valid() && rows == old(rows) && vecs == old(vecs)
      ensures journal == if ok then None else old(journal)
      ensures ok ==> old(journal).Some?
      ensures trace == if ok then Then(old(trace), JournalCleared) else old(trace)
      ensures faults == old(faults) + Fault(!ok)
    {
      ok := *;
      if journal.None? { ok := false; }
      faults := faults + Fault(!ok);
      if ok {
        journal := None;
        trace := Then(trace, JournalCleared);
      }
    }
  }
}
