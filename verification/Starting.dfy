/**
 Histories of incremental and forced runs, and starting a run on whatever they have left: the
 check that decides for a forced run, and the run.
 */
module Starting {
  import opened Options
  import opened IndexProtocol
  import opened IndexStores
  import opened Indexing
  import opened Desync
  import opened Staging
  import opened StagingTheorems

  // --- histories ---------------------------------------------------------------------

  /** What an index directory has been through: what came first, and the writes of
      incremental runs since then. */
  datatype Past = Past(first: First, writes: Trace)

  /** A new directory, or a forced run: it replays the journal, which are the last writes
      before it, and then meets its luck. As a run may be stopped, or no operation may work
      any more, after any one of them, a luck also says where it was cut short. `missing`
      when there was no serving collection. */
  datatype First = New | Forced(before: Past, files: seq<Path>, view: map<Path, FileView>, luck: Luck, missing: bool)

  /** The serving paths and their neighbours as the last forced run left them; later writes
      change what serves, but no neighbour. */
  ghost function Beside(h: Past): Directory
    decreases h
  {
    match h.first
    case New => Directory(None, None, None, None, None, None)
    case Forced(before, files, view, luck, missing) =>
      if forall p | p in files :: p in view then
        ForceOutcome(Met(Now(before.writes), Beside(before), missing), files, view, luck).disk
      else Beside(before)
  }

  /** The directory that a forced run meets. */
  function Met(s: State, beside: Directory, missing: bool): Directory {
    beside.(active := if missing then None else Some(s.disk.vecs), manifest := Some(s.disk.rows))
  }

  /** What later runs find: a missing manifest or collection is opened as an empty one. */
  ghost function Found(s: State, d: Directory, steady: bool): State {
    s.(disk := IndexProtocol.Disk(if d.manifest.Some? then d.manifest.value else map[],
                                  if d.active.Some? then d.active.value else {}, s.disk.journal),
       doomed := {}, touched := {}, settled := false, steady := s.steady && steady)
  }

  /** Any writes of any incremental and forced runs since the directory was new, cut short
      anywhere. */
  ghost predicate Lived(h: Past)
    decreases h
  {
    && Legal(h.writes)
    && match h.first
       case New => Fresh(Origin(h.writes)) && Origin(h.writes).linked
       case Forced(before, files, view, luck, missing) =>
         var s := Now(before.writes);
         && Lived(before) && s.settled && s.touched == {} && Known(files, view)
         && (missing ==> s.disk.vecs == {})
         && Origin(h.writes) == Found(s, Beside(h), AllSteady(files, view))
  }

  // --- what every history keeps ----------------------------------------------------------

  /** Rows that the indexer writes. */
  ghost predicate Fit(rows: Option<Manifest>, steady: bool) {
    rows.Some? ==> AllWritten(rows.value) && (steady ==> Consistent(rows.value))
  }

  ghost predicate Sound(s: State, beside: Directory) {
    && s.linked && Base(s) && AllWritten(s.disk.rows)
    && Fit(beside.stagingManifest, s.steady) && Fit(beside.oldManifest, s.steady)
  }

  lemma TurnKeepsFit(b: Built, p: Path, view: FileView, t: Turn, steady: bool)
    requires b.disk.staging.Some? && b.disk.stagingManifest.Some?
    requires Fit(b.disk.stagingManifest, steady) && (steady ==> Steady(view))
    ensures Fit(AfterFile(b, p, view, t).disk.stagingManifest, steady)
  {
    StagedRowFits(b.disk.stagingManifest.value, p, view, t.file, steady);
  }

  lemma StagedRowFits(rows: Manifest, p: Path, view: FileView, l: FileLuck, steady: bool)
    requires Fit(Some(rows), steady) && (steady ==> Steady(view))
    ensures Fit(Some(StagedRows(rows, p, view, l)), steady)
  {
  }

  lemma {:induction false} BuildKeepsFit(d: Directory, files: seq<Path>, view: map<Path, FileView>, turns: nat -> Turn, steady: bool)
    requires d.staging.Some? && d.stagingManifest.Some? && forall p | p in files :: p in view
    requires Fit(d.stagingManifest, steady) && (steady ==> AllSteady(files, view))
    ensures Fit(Build(d, files, view, turns).disk.stagingManifest, steady)
    decreases |files|
  {
    if files != [] {
      var n := |files| - 1;
      assert files == files[..n] + [files[n]];
      BuildKeepsFit(d, files[..n], view, turns, steady);
      var b := Build(d, files[..n], view, turns);
      if !b.stopped {
        TurnKeepsFit(b, files[n], view[files[n]], turns(n), steady);
      }
    }
  }

  lemma SwapKeepsFit(present: Option<Manifest>, staged: Option<Manifest>, old_: Option<Manifest>, l: SwapLuck, steady: bool)
    requires Fit(present, steady) && Fit(staged, steady) && Fit(old_, steady)
    ensures var r := Swap(present, staged, old_, l); Fit(r.present, steady) && Fit(r.staged, steady) && Fit(r.old_, steady)
  {
  }

  ghost predicate AllFit(d: Directory, steady: bool) {
    Fit(d.manifest, steady) && Fit(d.stagingManifest, steady) && Fit(d.oldManifest, steady)
  }

  lemma PromoteKeepsFit(d: Directory, l: Luck, steady: bool)
    requires AllFit(d, steady)
    ensures AllFit(Promote(d, l).0, steady)
  {
    SwapKeepsFit(d.manifest, d.stagingManifest, d.oldManifest, l.manifest, steady);
  }

  /** Whatever a forced run meets, each manifest it leaves has rows that the indexer writes. */
  lemma ForceKeepsFit(d: Directory, files: seq<Path>, view: map<Path, FileView>, l: Luck, steady: bool)
    requires (forall p | p in files :: p in view) && (steady ==> AllSteady(files, view))
    requires AllFit(d, steady)
    ensures AllFit(ForceOutcome(d, files, view, l).disk, steady)
  {
    if Builds(l) {
      BuildKeepsFit(Prepared(d, l), files, view, l.turns, steady);
      PromoteKeepsFit(Build(Prepared(d, l), files, view, l.turns).disk, l, steady);
    }
  }

  /** Writes never restore a flag. */
  lemma {:induction false} FlagsFall(t: Trace)
    ensures (Now(t).steady ==> Origin(t).steady) && (Now(t).clean ==> Origin(t).clean) && Now(t).linked == Origin(t).linked
  {
    if t.Then? {
      FlagsFall(t.before);
    }
  }

  lemma FitFalls(rows: Option<Manifest>, steady: bool, later: bool)
    requires Fit(rows, steady) && (later ==> steady)
    ensures Fit(rows, later)
  {
  }

  /** A forced run finds nothing pending, if all replays have settled. */
  lemma ForceKeepsBase(s: State, d: Directory, steady: bool)
    requires Base(s) && s.settled && s.touched == {} && Fit(d.manifest, s.steady && steady)
    ensures Base(Found(s, d, steady)) && AllWritten(Found(s, d, steady).disk.rows)
  {
  }

  /** At every crash point of every sequence of incremental and forced runs from a new
      directory: the rows, and those waiting beside them, are ones the indexer writes, and
      with settled replays the journal names no committed id. */
  lemma {:induction false} PastIsSound(h: Past)
    requires Lived(h)
    ensures Sound(Now(h.writes), Beside(h))
    decreases h
  {
    FlagsFall(h.writes);
    if h.first.Forced? {
      OriginIsSound(h);
      FitFalls(Beside(h).stagingManifest, Origin(h.writes).steady, Now(h.writes).steady);
      FitFalls(Beside(h).oldManifest, Origin(h.writes).steady, Now(h.writes).steady);
    }
    RunsKeepBase(h.writes);
    RowsAreWritten(h.writes, h.writes);
  }

  lemma {:induction false} OriginIsSound(h: Past)
    requires Lived(h) && h.first.Forced?
    ensures Sound(Origin(h.writes), Beside(h))
    decreases h, 0
  {
    var Forced(before, files, view, luck, missing) := h.first;
    var s := Now(before.writes);
    PastIsSound(before);
    var d := Met(s, Beside(before), missing);
    var steady := AllSteady(files, view);
    FitFalls(d.stagingManifest, s.steady, s.steady && steady);
    FitFalls(d.oldManifest, s.steady, s.steady && steady);
    ForceKeepsFit(d, files, view, luck, s.steady && steady);
    ForceKeepsBase(s, Beside(h), steady);
  }

  /** Every crash point of a history is a history. */
  lemma CutShort(h: Past, at: Trace)
    requires Lived(h) && CrashPoint(at, h.writes)
    ensures Lived(h.(writes := at))
  {
    SameOrigin(at, h.writes);
    CutShortIsLegal(at, h.writes);
  }

  lemma {:induction false} CutShortIsLegal(at: Trace, t: Trace)
    requires Legal(t) && CrashPoint(at, t)
    ensures Legal(at)
  {
    if at != t {
      CutShortIsLegal(at, t.before);
    }
  }

  // --- starting a run --------------------------------------------------------------------

  datatype Started = Refused | Ran(forced: bool, ok: bool, failed: nat) {
    predicate Succeeded() { Ran? && ok && failed == 0 }
  }

  /** The stores and the paths beside them are what the history has left. */
  ghost predicate Left(ix: Index, beside: Directory, h: Past)
    reads ix
  {
    ix.Valid() && Lived(h) && h.writes == ix.trace && beside == Beside(h)
  }

  /** `h'` continues `h` by the writes of an incremental run or by a forced run. */
  ghost predicate Follows(h: Past, h': Past) {
    || (h'.first == h.first && CrashPoint(h.writes, h'.writes))
    || (h'.first.Forced? && h'.first.before.first == h.first && CrashPoint(h.writes, h'.first.before.writes) && h'.writes.Began?)
  }

  /** No crash point from `a` to `t` has a row without its vectors. */
  ghost predicate LiveBetween(a: Trace, t: Trace) {
    forall at | CrashPoint(a, at) && CrashPoint(at, t) :: Live(Now(at))
  }

  /** What was stored without a row and is not replayed belongs to the files found now. */
  ghost predicate OrphansCovered(vecs: set<DocId>, journal: Option<seq<DocId>>, files: seq<Path>, view: map<Path, FileView>)
    requires forall p | p in files :: p in view
  {
    forall d | d in vecs && d !in Pending(journal) :: d.path in files && d in ExpectedIds(d.path, view[d.path])
  }

  /** No row of another file can be left over in the staging manifest. */
  predicate StagesOnly(beside: Directory, files: seq<Path>, luck: Luck) {
    luck.discards || beside.stagingManifest.None? || forall p | p in beside.stagingManifest.value :: p in files
  }

  /** What serves is a rebuild exactly when nothing else was left over, and then it is an
      origin from which incremental runs lose nothing. */
  ghost predicate RebuildOrLeftOver(s: State, beside: Directory, files: seq<Path>, view: map<Path, FileView>, luck: Luck)
    requires forall p | p in files :: p in view
  {
    && (IsRebuild(s.disk.rows, files, view) <==> StagesOnly(beside, files, luck))
    && (IsRebuild(s.disk.rows, files, view) ==> Exact(s.disk.rows, s.disk.vecs) && Inv(s))
  }

  /** A forced run succeeds if nothing fails but single files; it counts those it left out. */
  ghost predicate ForcedAs(r: Started, beside: Directory, files: seq<Path>, view: map<Path, FileView>, luck: Luck, ready: bool)
    requires r.Ran? && forall p | p in files :: p in view
  {
    && (ready && Works(files, view, luck) ==> r.ok)
    && (r.ok ==> r.failed == |Skipped(LeftOverRows(beside, luck), files, view, luck.turns)|)
  }

  /**
   A Start after any history. One that is not forced found no rows or exactly their vectors,
   and loses no vector of a row at any crash point. One that succeeds with no failed file
   leaves: if it is incremental, the rows of a rebuild, their vectors and exactly what was
   stored without a row before, which is a rebuild if and only if there were rows or those
   vectors belong to the files found now, as an empty manifest is never out of step; if it is
   forced, a rebuild if and only if no other row was left over in staging.
   */
  method Start(ix: Index, force: bool, paths: seq<Path>, access: Access, files: seq<Path>, view: map<Path, FileView>,
               batchSize: int, beside: Directory, luck: Luck, ghost h: Past)
    returns (r: Started, now: Index, beside': Directory, ghost h': Past)
    requires Left(ix, beside, h) && IsListing(ix.rows, paths) && Known(files, view)
    modifies ix
    ensures (now == ix || fresh(now)) && Left(now, beside', h') && Follows(h, h')
    ensures Now(h'.writes).clean ==> Now(h.writes).clean
    ensures Now(h.writes).steady && AllSteady(files, view) ==> Now(h'.writes).steady
    ensures r.Refused? ==> now == ix && h' == h && now.rows == old(ix.rows) && now.vecs == old(ix.vecs)
    ensures r.Refused? <==> !force && old(ix.rows) != map[] && access.Broken?
    ensures r.Ran? ==> (r.forced <==> force || old(ix.rows != map[] && (access.LockedOrMissing? || !Exact(ix.rows, ix.vecs))))
    ensures r.Ran? && !r.forced && Now(h'.writes).clean ==> h'.first == h.first && LiveBetween(h.writes, h'.writes)
    ensures r.Succeeded() && !r.forced && Now(h'.writes).clean && Now(h.writes).steady && AllSteady(files, view) ==>
      && IsRebuild(now.rows, files, view)
      && Carried(old(ix.rows), old(ix.vecs - SetOf(Pending(ix.journal))), now.rows, now.vecs)
      && (Exact(now.rows, now.vecs) <==>
            old(ix.rows) != map[] || OrphansCovered(old(ix.vecs), old(ix.journal), files, view))
    ensures r.Succeeded() && r.forced ==> RebuildOrLeftOver(Now(now.trace), beside, files, view, luck)
    ensures r.Ran? && r.forced ==> ForcedAs(r, beside, files, view, luck, ix.faults == old(ix.faults))
    ensures ix.faults == old(ix.faults) ==> Now(h'.writes).clean == Now(h.writes).clean
    ensures ix.faults == old(ix.faults) && r.Ran? && !r.forced && NoneBlocked(files, view) ==> r.Succeeded()
  {
    var forced, failed := Decide(ix, force, paths, access, h);
    if failed {
      return Refused, ix, beside, h;
    }
    if forced {
      r, now, beside', h' := StartForced(ix, files, view, beside, luck, h);
    } else {
      r := StartIncremental(ix, files, view, batchSize, h);
      now, beside', h' := ix, beside, h.(writes := ix.trace);
    }
  }

  /** Whether the run is forced. */
  method Decide(ix: Index, force: bool, paths: seq<Path>, access: Access, ghost h: Past) returns (forced: bool, failed: bool)
    requires ix.Valid() && Lived(h) && h.writes == ix.trace && IsListing(ix.rows, paths)
    ensures failed <==> !force && ix.rows != map[] && access.Broken?
    ensures forced <==> force || (ix.rows != map[] && (access.LockedOrMissing? || (access.Opens? && !Exact(ix.rows, ix.vecs))))
  {
    if force {
      return true, false;
    }
    PastIsSound(h);
    WrittenRowsCount(ix.rows);
    WrittenRowsAreCounted(ix.rows, ix.vecs, paths);
    forced, failed := ManifestZvecDesync(ix, paths, access);
  }

  /** Of the rows the indexer writes the check sees whether there are any, and whether the
      store holds exactly their vectors. */
  lemma WrittenRowsAreCounted(rows: map<Path, Row>, vecs: set<DocId>, paths: seq<Path>)
    requires IsListing(rows, paths) && AllWritten(rows) && RowsOwn(rows) && CountsMatch(rows)
    ensures Counted(rows, paths) && (ChunkTotal(rows, paths) == 0 <==> rows == map[])
    ensures vecs == IdsUnder(rows, paths) <==> Exact(rows, vecs)
  {
    ChunksMeanRows(rows, paths);
    TotalIsUnionSize(rows, paths);
    ExactIsUnion(rows, vecs, paths);
    assert forall k | 0 <= k < |paths| :: paths[k] in rows;
    assert rows == map[] ==> |paths| == 0;
    if paths == [] {
      assert forall p :: p in paths <==> p in rows;
    }
  }

  method StartIncremental(ix: Index, files: seq<Path>, view: map<Path, FileView>, batchSize: int, ghost h: Past)
    returns (r: Started)
    requires ix.Valid() && Lived(h) && h.writes == ix.trace && Known(files, view)
    requires ix.rows == map[] || Exact(ix.rows, ix.vecs)
    modifies ix
    ensures ix.Valid() && Legal(ix.trace) && CrashPoint(h.writes, ix.trace) && Lived(h.(writes := ix.trace))
    ensures Now(ix.trace).clean ==> Now(h.writes).clean && LiveBetween(h.writes, ix.trace)
    ensures Now(h.writes).steady && AllSteady(files, view) ==> Now(ix.trace).steady
    ensures r.Ran? && !r.forced
    ensures r.Succeeded() && Now(ix.trace).clean && Now(h.writes).steady && AllSteady(files, view) ==>
      && IsRebuild(ix.rows, files, view)
      && Carried(old(ix.rows), old(ix.vecs - SetOf(Pending(ix.journal))), ix.rows, ix.vecs)
      && (Exact(ix.rows, ix.vecs) <==>
            old(ix.rows) != map[] || OrphansCovered(old(ix.vecs), old(ix.journal), files, view))
    ensures ix.faults == old(ix.faults) ==>
      Now(ix.trace).clean == Now(h.writes).clean && (NoneBlocked(files, view) ==> r.Succeeded())
  {
    PastIsSound(h);
    ExactIsStored(ix.rows, ix.vecs);
    ghost var rows0, vecs0, journal := ix.rows, ix.vecs, ix.journal;
    var err, failed, _, replayed := Indexing.Run(ix, files, view, batchSize);
    r := Ran(false, err.None?, failed);
    SameOrigin(h.writes, ix.trace);
    if Now(ix.trace).clean {
      RunStaysLive(h.writes, ix.trace);
      if r.Succeeded() && Now(h.writes).steady && AllSteady(files, view) {
        CarriedIsExactIff(rows0, replayed, ix.rows, ix.vecs);
        if rows0 == map[] {
          CoveredIff(replayed, vecs0, journal, ix.rows, files, view);
        }
      }
    }
  }

  lemma RunStaysLive(a: Trace, t: Trace)
    requires CrashPoint(a, t) && Legal(t) && Now(t).clean && Now(t).linked
    requires Base(Now(a)) && AllStored(Now(a).disk.rows, Now(a).disk.vecs)
    ensures LiveBetween(a, t)
  {
    forall p, d | p in Now(a).disk.rows && d in Now(a).disk.rows[p].docIds ensures d in Now(a).disk.vecs {
      assert d in RowIds(Now(a).disk.rows, d.path);
    }
    forall at | CrashPoint(a, at) && CrashPoint(at, t) ensures Live(Now(at)) {
      StaysLive(a, at, t);
      FlagsFall(t);
      SameOrigin(at, t);
      FlagsFall(at);
    }
  }

  lemma CoveredIff(replayed: set<DocId>, vecs0: set<DocId>, journal: Option<seq<DocId>>, rows: map<Path, Row>, files: seq<Path>,
                   view: map<Path, FileView>)
    requires (forall p | p in files :: p in view) && IsRebuild(rows, files, view)
    requires replayed == vecs0 - SetOf(Pending(journal))
    ensures (forall d | d in replayed :: d in RowIds(rows, d.path)) <==> OrphansCovered(vecs0, journal, files, view)
  {
    forall d: DocId ensures d in RowIds(rows, d.path) <==> d.path in files && d in ExpectedIds(d.path, view[d.path]) {
      assert RowAt(rows, d.path) == if d.path in files then Expected(d.path, view[d.path]) else None;
    }
    forall d: DocId ensures d in replayed <==> d in vecs0 && d !in Pending(journal) {
    }
  }

  /** What the history has become when a forced run has ended. */
  ghost function AfterForce(before: Past, files: seq<Path>, view: map<Path, FileView>, luck: Luck, missing: bool, d: Directory): Past
    requires forall p | p in files :: p in view
  {
    Past(Forced(before, files, view, luck, missing), Began(Found(Now(before.writes), d, AllSteady(files, view))))
  }

  /** How the last forced run ended. */
  ghost function Ended(h: Past): Outcome
    requires Lived(h) && h.first.Forced?
  {
    ForceOutcome(Met(Now(h.first.before.writes), Beside(h.first.before), h.first.missing), h.first.files, h.first.view, h.first.luck)
  }

  lemma ForcedLives(before: Past, files: seq<Path>, view: map<Path, FileView>, luck: Luck, missing: bool, d: Directory)
    requires Lived(before) && Now(before.writes).settled && Now(before.writes).touched == {} && Known(files, view)
    requires missing ==> Now(before.writes).disk.vecs == {}
    requires d == ForceOutcome(Met(Now(before.writes), Beside(before), missing), files, view, luck).disk
    ensures var h := AfterForce(before, files, view, luck, missing, d);
            Lived(h) && Beside(h) == d && Ended(h) == ForceOutcome(Met(Now(before.writes), Beside(before), missing), files, view, luck)
  {
    var h := AfterForce(before, files, view, luck, missing, d);
    assert Beside(h) == d;
  }

  lemma ExactIsOrigin(h: Past)
    requires Lived(h) && Exact(Now(h.writes).disk.rows, Now(h.writes).disk.vecs)
    ensures Inv(Now(h.writes))
  {
    PastIsSound(h);
    ExactIsLive(Now(h.writes));
  }

  lemma ExactIsLive(s: State)
    requires RowsOwn(s.disk.rows) && Exact(s.disk.rows, s.disk.vecs)
    ensures Live(s)
  {
    forall p, d | p in s.disk.rows && d in s.disk.rows[p].docIds ensures d in s.disk.vecs {
      assert d in RowIds(s.disk.rows, d.path);
    }
  }

  lemma ForceEnds(h: Past)
    requires Lived(h) && h.first.Forced?
    ensures var Forced(before, files, view, luck, _) := h.first;
            ForcedAs(Ran(true, Ended(h).ok, Ended(h).failed), Beside(before), files, view, luck, true)
  {
    var Forced(before, files, view, luck, missing) := h.first;
    var d := Met(Now(before.writes), Beside(before), missing);
    RunGetsTo(d, files, view, luck);
    if Works(files, view, luck) {
      WorkingRunSucceeds(d, files, view, luck);
    }
  }

  /** What serves after a forced run that succeeds with no failed file. */
  lemma ForceServes(h: Past)
    requires Lived(h) && h.first.Forced? && h.writes.Began?
    requires Ended(h).ok && Ended(h).failed == 0
    ensures RebuildOrLeftOver(Now(h.writes), Beside(h.first.before), h.first.files, h.first.view, h.first.luck)
  {
    var Forced(before, files, view, luck, missing) := h.first;
    SuccessIsRebuildIff(Met(Now(before.writes), Beside(before), missing), files, view, luck);
    if IsRebuild(Now(h.writes).disk.rows, files, view) {
      ExactIsOrigin(h);
    }
  }

  method StartForced(ix: Index, files: seq<Path>, view: map<Path, FileView>, beside: Directory, luck: Luck, ghost h: Past)
    returns (r: Started, now: Index, beside': Directory, ghost h': Past)
    requires Left(ix, beside, h) && Known(files, view)
    modifies ix
    ensures (now == ix || fresh(now)) && Left(now, beside', h') && Follows(h, h')
    ensures Now(h'.writes).clean ==> Now(h.writes).clean
    ensures Now(h.writes).steady && AllSteady(files, view) ==> Now(h'.writes).steady
    ensures r.Ran? && r.forced
    ensures r.Succeeded() ==> RebuildOrLeftOver(Now(now.trace), beside, files, view, luck)
    ensures ForcedAs(r, beside, files, view, luck, ix.faults == old(ix.faults))
    ensures ix.faults == old(ix.faults) ==> Now(h'.writes).clean == Now(h.writes).clean
  {
    var ready := BeginRun(ix);
    SameOrigin(h.writes, ix.trace);
    ghost var before := h.(writes := ix.trace);
    assert Beside(before) == Beside(h);
    if !ready {
      return Ran(true, false, 0), ix, beside, before;
    }
    r, now, beside', h' := ForceAfterReplay(ix, files, view, beside, luck, before);
  }

  /** A forced run after its journal replay, and what the next run opens. */
  method ForceAfterReplay(ix: Index, files: seq<Path>, view: map<Path, FileView>, beside: Directory, luck: Luck, ghost before: Past)
    returns (r: Started, now: Index, beside': Directory, ghost h': Past)
    requires Left(ix, beside, before) && Now(ix.trace).settled && Now(ix.trace).touched == {} && Known(files, view)
    ensures fresh(now) && Left(now, beside', h') && h'.first.Forced? && h'.first.before == before && h'.writes.Began?
    ensures Now(h'.writes).clean == Now(before.writes).clean
    ensures Now(before.writes).steady && AllSteady(files, view) ==> Now(h'.writes).steady
    ensures r.Ran? && r.forced
    ensures r.Succeeded() ==> RebuildOrLeftOver(Now(now.trace), beside, files, view, luck)
    ensures ForcedAs(r, beside, files, view, luck, true)
  {
    var ok, failed;
    ghost var missing;
    ok, failed, beside', missing, h' := ForceFrom(ix, files, view, beside, luck, before);
    now := OpenLeft(beside', ix.journal, h');
    r := Ran(true, ok, failed);
    ForceEnds(h');
    if r.Succeeded() {
      ForceServes(h');
    }
  }

  method RunStaged(d: Directory, files: seq<Path>, view: map<Path, FileView>, luck: Luck, ghost met: Directory)
    returns (ok: bool, failed: nat, d': Directory)
    requires d == met && forall p | p in files :: p in view
    ensures var o := ForceOutcome(met, files, view, luck); ok == o.ok && failed == o.failed && d' == o.disk
  {
    var staged := new StagedIndex(d);
    var progress;
    ok, failed, progress := staged.ForceRun(files, view, luck);
    d' := Directory(staged.active, staged.staging, staged.old_, staged.manifest, staged.stagingManifest, staged.oldManifest);
  }

  /** A missing manifest or collection is opened as an empty one. */
  method OpenLeft(d: Directory, journal: Option<seq<DocId>>, ghost h: Past) returns (now: Index)
    requires Lived(h) && h.first.Forced? && h.writes.Began? && Beside(h) == d && journal == Now(h.first.before.writes).disk.journal
    ensures fresh(now) && Left(now, d, h)
  {
    PastIsSound(h);
    var rows := if d.manifest.Some? then d.manifest.value else map[];
    var vecs := if d.active.Some? then d.active.value else {};
    now := new Index.Reopen(true, rows, vecs, journal, h.writes);
  }

  /** The run, with the history it makes. */
  method ForceFrom(ix: Index, files: seq<Path>, view: map<Path, FileView>, beside: Directory, luck: Luck, ghost before: Past)
    returns (ok: bool, failed: nat, beside': Directory, ghost missing: bool, ghost h': Past)
    requires Left(ix, beside, before) && Now(ix.trace).settled && Now(ix.trace).touched == {} && Known(files, view)
    ensures Lived(h') && h'.first == Forced(before, files, view, luck, missing) && h'.writes.Began?
    ensures beside' == Beside(h') && ok == Ended(h').ok && failed == Ended(h').failed
  {
    var absent: bool := *;
    absent := absent && ix.vecs == {};
    missing := absent;
    var d := beside.(active := if absent then None else Some(ix.vecs), manifest := Some(ix.rows));
    ok, failed, beside' := RunStaged(d, files, view, luck, Met(Now(before.writes), Beside(before), missing));
    h' := AfterForce(before, files, view, luck, missing, beside');
    ForcedLives(before, files, view, luck, missing, beside');
  }

  // --- any sequence of them ---------------------------------------------------------------

  datatype Request = Request(force: bool, access: Access, files: seq<Path>, view: map<Path, FileView>, batchSize: int, luck: Luck)

  datatype Stores = Stores(rows: map<Path, Row>, vecs: set<DocId>)

  ghost predicate AllKnown(requests: seq<Request>) {
    forall q | q in requests :: Known(q.files, q.view)
  }

  ghost predicate AllChunkedAsHashed(requests: seq<Request>)
    requires AllKnown(requests)
  {
    forall q | q in requests :: AllSteady(q.files, q.view)
  }

  /** What one Start of a sequence does to what serves. */
  ghost predicate Meets(q: Request, r: Started, s: Stores, s': Stores)
    requires Known(q.files, q.view)
  {
    && (r.Refused? ==> s' == s)
    && (r.Refused? <==> !q.force && s.rows != map[] && q.access.Broken?)
    && (r.Ran? ==> (r.forced <==> q.force || (s.rows != map[] && (q.access.LockedOrMissing? || !Exact(s.rows, s.vecs)))))
    && (r.Succeeded() && !r.forced ==> IsRebuild(s'.rows, q.files, q.view) && (s.rows != map[] ==> Exact(s'.rows, s'.vecs)))
    && (r.Succeeded() && r.forced && q.luck.discards ==> IsRebuild(s'.rows, q.files, q.view) && Exact(s'.rows, s'.vecs))
  }

  /** The manifest's rows as the store lists them. */
  method List(rows: map<Path, Row>) returns (paths: seq<Path>)
    ensures IsListing(rows, paths)
  {
    paths := [];
    var todo := rows.Keys;
    while todo != {}
      invariant todo <= rows.Keys && (forall p :: p in paths <==> p in rows.Keys - todo)
      invariant forall i, j | 0 <= i < j < |paths| :: paths[i] != paths[j]
    {
      var p :| p in todo;
      assert p !in paths && forall i | 0 <= i < |paths| :: paths[i] in paths;
      paths, todo := paths + [p], todo - {p};
    }
  }

  /** Start after Start, forced or not and however each ends: each does what is said of one
      above, whatever those before it left. `served` is what serves between them. */
  method Starts(ix: Index, requests: seq<Request>, beside: Directory, ghost h: Past)
    returns (outcomes: seq<Started>, now: Index, beside': Directory, ghost h': Past, ghost served: seq<Stores>)
    requires Left(ix, beside, h) && AllKnown(requests)
    modifies ix
    ensures (now == ix || fresh(now)) && Left(now, beside', h')
    ensures |outcomes| == |requests| && |served| == |requests| + 1
    ensures served[0] == old(Stores(ix.rows, ix.vecs)) && served[|requests|] == Stores(now.rows, now.vecs)
    ensures Now(h'.writes).clean && Now(h.writes).steady && AllChunkedAsHashed(requests) ==>
      forall i | 0 <= i < |requests| :: Meets(requests[i], outcomes[i], served[i], served[i + 1])
  {
    outcomes, now, beside', h', served := [], ix, beside, h, [Stores(ix.rows, ix.vecs)];
    for k := 0 to |requests|
      invariant (now == ix || fresh(now)) && Left(now, beside', h')
      invariant |outcomes| == k && |served| == k + 1
      invariant served[0] == old(Stores(ix.rows, ix.vecs)) && served[k] == Stores(now.rows, now.vecs)
      invariant Now(h.writes).steady && AllChunkedAsHashed(requests) ==> Now(h'.writes).steady
      invariant Now(h'.writes).clean && Now(h.writes).steady && AllChunkedAsHashed(requests) ==>
        forall i | 0 <= i < k :: Meets(requests[i], outcomes[i], served[i], served[i + 1])
    {
      var q := requests[k];
      assert q in requests;
      var paths := List(now.rows);
      var r;
      r, now, beside', h' := Start(now, q.force, paths, q.access, q.files, q.view, q.batchSize, beside', q.luck, h');
      outcomes, served := outcomes + [r], served + [Stores(now.rows, now.vecs)];
    }
  }

  // --- what the check cannot see -------------------------------------------------------------

  /** A first run that crashed after storing a vector and before its first row. */
  ghost function Orphaned(d: DocId): Past {
    var begun := Then(Then(Then(Began(State(NewDisk(), {}, {}, false, true, true, true)), RunBegan), JournalOpened), ReplayEnded);
    Past(New, Then(begun, VectorsAdded(d.path, {d})))
  }

  /** An index directory with nothing in it. */
  function NewDisk(): IndexProtocol.Disk { IndexProtocol.Disk(map[], {}, None) }

  lemma OrphanedIsLived(d: DocId)
    ensures Lived(Orphaned(d)) && Beside(Orphaned(d)) == Directory(None, None, None, None, None, None)
    ensures Now(Orphaned(d).writes) == State(IndexProtocol.Disk(map[], {d}, Some([])), {}, {}, true, true, true, true)
  {
    var s0 := State(NewDisk(), {}, {}, false, true, true, true);
    var t1 := Then(Began(s0), RunBegan);
    var t2 := Then(t1, JournalOpened);
    var t3 := Then(t2, ReplayEnded);
    assert Now(t1) == s0 && Legal(t1);
    assert Legal(t2) && Now(t2).disk.journal == Some([]);
    assert Legal(t3);
    assert {} + {d} == {d};
  }

  /** Such a vector, of no file found now: the next Start is not forced, and if it succeeds
      the vector stays, in no row. The Start after that is forced if and only if there are
      rows by then. */
  method OrphanStaysUnseen(d: DocId, access: Access, files: seq<Path>, view: map<Path, FileView>, batchSize: int, luck: Luck)
    returns (first: Started, second: Started, ghost after: Past)
    requires Known(files, view) && AllSteady(files, view)
    requires !(d.path in files && d in ExpectedIds(d.path, view[d.path]))
    ensures first.Ran? && !first.forced
    ensures first.Succeeded() && Now(after.writes).clean ==>
      && d in Now(after.writes).disk.vecs && d !in RowIds(Now(after.writes).disk.rows, d.path)
      && IsRebuild(Now(after.writes).disk.rows, files, view)
      && second.Ran? && (second.forced <==> Now(after.writes).disk.rows != map[])
  {
    OrphanedIsLived(d);
    var beside := Directory(None, None, None, None, None, None);
    var ix := new Index.Reopen(true, map[], {d}, Some([]), Orphaned(d).writes);
    first, ix, beside, after := Start(ix, false, [], access, files, view, batchSize, beside, luck, Orphaned(d));
    ghost var s := Now(after.writes);
    if first.Succeeded() && s.clean {
      assert RowAt(s.disk.rows, d.path) == if d.path in files then Expected(d.path, view[d.path]) else None;
      assert d in s.disk.vecs;
    }
    var paths := List(ix.rows);
    ghost var h;
    second, ix, beside, h := Start(ix, false, paths, Opens, files, view, batchSize, beside, luck, after);
  }
}
