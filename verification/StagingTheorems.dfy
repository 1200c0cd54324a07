/**
 What a failed force run leaves: exactly when the serving index is kept, and the runs that
 do not keep it.
 */
module StagingTheorems {
  import opened Options
  import opened IndexProtocol
  import opened IndexStores
  import opened Indexing
  import opened Staging

  /** The run failed at or before the rename that publishes the staged collection. */
  predicate Early(o: Outcome) { o.progress.Building? || o.progress.Closing? }

  predicate Kept(d: Directory, o: Outcome) { o.disk.active == d.active && o.disk.manifest == d.manifest }

  // --- what stops a build, and what it skips ------------------------------------------------

  predicate Chunked(view: FileView) { view.Readable? && view.chunked.Some? }

  /** The turn ends the build: it is stopped before the file, the file cannot be read for a
      reason that is not its own, its row is lost, or storing it fails for such a reason. */
  predicate StopsTurn(view: FileView, t: Turn) {
    t.stopped || view == Unreadable(Abort) || (Chunked(view) && (t.file.RowLost? || (t.file.Broken? && !t.file.skippable)))
  }

  /** The turn leaves its file out: it cannot be read, chunking or storing it fails for a reason
      of its own, or it has vanished and its left-over row cannot be purged. */
  predicate SkipsTurn(rows0: Manifest, p: Path, view: FileView, t: Turn) {
    || view == Unreadable(Skippable)
    || (Chunked(view) && t.file.Broken? && t.file.skippable)
    || (Gone(view) && (t.purge.NoRead? || (p in rows0 && !t.purge.Purges?)))
  }

  predicate SomeStop(files: seq<Path>, view: map<Path, FileView>, turns: nat -> Turn)
    requires forall p | p in files :: p in view
  {
    exists i: nat :: i < |files| && StopsTurn(view[files[i]], turns(i))
  }

  function Skipped(rows0: Manifest, files: seq<Path>, view: map<Path, FileView>, turns: nat -> Turn): set<nat>
    requires forall p | p in files :: p in view
  {
    set i: nat | i < |files| && SkipsAt(rows0, files, view, turns, i)
  }

  predicate SkipsAt(rows0: Manifest, files: seq<Path>, view: map<Path, FileView>, turns: nat -> Turn, i: nat)
    requires i < |files| && forall p | p in files :: p in view
  {
    SkipsTurn(rows0, files[i], view[files[i]], turns(i))
  }

  /** A build goes on over every file until a turn stops it, and counts exactly the files it
      leaves out. */
  lemma {:induction false} BuildStopsIff(d: Directory, files: seq<Path>, view: map<Path, FileView>, turns: nat -> Turn)
    requires d.staging.Some? && d.stagingManifest.Some? && Known(files, view)
    ensures var b := Build(d, files, view, turns);
      && (b.stopped <==> SomeStop(files, view, turns))
      && (!b.stopped ==> b.failed == |Skipped(d.stagingManifest.value, files, view, turns)|)
    decreases |files|
  {
    if files != [] {
      var n := |files| - 1;
      var done, p := files[..n], files[n];
      assert files == done + [p] && p !in done;
      BuildStopsIff(d, done, view, turns);
      StopsLater(files, view, turns);
      OneMoreSkipped(d.stagingManifest.value, files, view, turns);
      LastTurn(d, files, view, turns);
    } else {
      assert Skipped(d.stagingManifest.value, files, view, turns) == {};
    }
  }

  /** What the last turn adds to a build that has not been stopped before. */
  lemma LastTurn(d: Directory, files: seq<Path>, view: map<Path, FileView>, turns: nat -> Turn)
    requires d.staging.Some? && d.stagingManifest.Some? && Known(files, view) && files != []
    ensures var n := |files| - 1;
            var p := files[n];
            var (b, b') := (Build(d, files[..n], view, turns), Build(d, files, view, turns));
      && (b'.stopped <==> b.stopped || StopsTurn(view[p], turns(n)))
      && (!b'.stopped ==> b'.failed == b.failed + if SkipsTurn(d.stagingManifest.value, p, view[p], turns(n)) then 1 else 0)
  {
    var n := |files| - 1;
    var p := files[n];
    assert files == files[..n] + [p] && p !in files[..n];
    var b := Build(d, files[..n], view, turns);
    if !b.stopped {
      BuildReaches(d, files[..n], view, turns);
      assert RowAt(b.disk.stagingManifest.value, p) == RowAt(d.stagingManifest.value, p);
      TurnStopsIff(b, d.stagingManifest.value, p, view[p], turns(n));
    }
  }

  lemma StopsLater(files: seq<Path>, view: map<Path, FileView>, turns: nat -> Turn)
    requires files != [] && forall p | p in files :: p in view
    ensures var n := |files| - 1;
            SomeStop(files, view, turns) <==> SomeStop(files[..n], view, turns) || StopsTurn(view[files[n]], turns(n))
  {
    var n := |files| - 1;
    if SomeStop(files[..n], view, turns) {
      var i: nat :| i < n && StopsTurn(view[files[..n][i]], turns(i));
      assert files[..n][i] == files[i];
    }
    if SomeStop(files, view, turns) && !StopsTurn(view[files[n]], turns(n)) {
      var i: nat :| i < |files| && StopsTurn(view[files[i]], turns(i));
      assert files[..n][i] == files[i];
    }
  }

  lemma TurnStopsIff(b: Built, rows0: Manifest, p: Path, view: FileView, t: Turn)
    requires b.disk.staging.Some? && b.disk.stagingManifest.Some? && !b.stopped
    requires p in b.disk.stagingManifest.value <==> p in rows0
    ensures AfterFile(b, p, view, t).stopped <==> StopsTurn(view, t)
    ensures !StopsTurn(view, t) ==> AfterFile(b, p, view, t).failed == b.failed + if SkipsTurn(rows0, p, view, t) then 1 else 0
  {
  }

  lemma OneMoreSkipped(rows0: Manifest, files: seq<Path>, view: map<Path, FileView>, turns: nat -> Turn)
    requires files != [] && forall p | p in files :: p in view
    ensures var n := |files| - 1;
            |Skipped(rows0, files, view, turns)| ==
            |Skipped(rows0, files[..n], view, turns)| + if SkipsTurn(rows0, files[n], view[files[n]], turns(n)) then 1 else 0
  {
    var n: nat := |files| - 1;
    forall i: nat | i < n ensures SkipsAt(rows0, files[..n], view, turns, i) == SkipsAt(rows0, files, view, turns, i) {
      assert files[..n][i] == files[i];
    }
    OneMore(Skipped(rows0, files[..n], view, turns), Skipped(rows0, files, view, turns), n, SkipsAt(rows0, files, view, turns, n));
  }

  lemma OneMore(before: set<nat>, after: set<nat>, n: nat, more: bool)
    requires n !in before && forall i :: i in after <==> i in before || (more && i == n)
    ensures |after| == |before| + if more then 1 else 0
  {
    if more {
      assert after == before + {n};
    } else {
      assert after == before;
    }
  }

  // --- what a build leaves ---------------------------------------------------------------------

  /** A file that is left out keeps its left-over row, and of its vectors those stored before
      it failed are there; any other file is as in a rebuild. */
  ghost predicate TurnLeft(rows0: Manifest, rows: Manifest, vecs: Collection, p: Path, view: FileView, t: Turn) {
    if SkipsTurn(rows0, p, view, t) then
      && RowAt(rows, p) == RowAt(rows0, p)
      && forall d: DocId | d.path == p :: d in vecs <==> Chunked(view) && d in IdsOf(p, view.chunked.value) && d in t.file.left
    else
      RowAt(rows, p) == Expected(p, view) && forall d: DocId | d.path == p :: d in vecs <==> d in ExpectedIds(p, view)
  }

  ghost predicate Staged(rows0: Manifest, rows: Manifest, vecs: Collection, done: seq<Path>, view: map<Path, FileView>,
                         turns: nat -> Turn) {
    && (forall p | p in done :: p in view)
    && (forall i: nat | i < |done| :: TurnLeft(rows0, rows, vecs, done[i], view[done[i]], turns(i)))
    && (forall p | p !in done :: RowAt(rows, p) == RowAt(rows0, p) && forall d: DocId | d.path == p :: d !in vecs)
  }

  /** A build that is not stopped leaves each file as its turn says, and other rows alone. */
  lemma {:induction false} BuildLeaves(d: Directory, files: seq<Path>, view: map<Path, FileView>, turns: nat -> Turn)
    requires Known(files, view) && d.staging == Some({}) && d.stagingManifest.Some?
    ensures var b := Build(d, files, view, turns);
            !b.stopped ==> Staged(d.stagingManifest.value, b.disk.stagingManifest.value, b.disk.staging.value, files, view, turns)
    decreases |files|
  {
    if files != [] {
      var n := |files| - 1;
      var done, p := files[..n], files[n];
      assert files == done + [p] && p !in done;
      BuildLeaves(d, done, view, turns);
      var b := Build(d, done, view, turns);
      var b' := Build(d, files, view, turns);
      if !b'.stopped {
        assert b' == AfterFile(b, p, view[p], turns(n));
        var rows0, rows, vecs := d.stagingManifest.value, b.disk.stagingManifest.value, b.disk.staging.value;
        var rows', vecs' := b'.disk.stagingManifest.value, b'.disk.staging.value;
        TurnLeaves(b, rows0, p, view[p], turns(n));
        TurnReaches(b, p, view[p], turns(n));
        OneMoreStaged(rows0, rows, vecs, rows', vecs', done, p, view, turns);
      }
    }
  }

  lemma TurnLeaves(b: Built, rows0: Manifest, p: Path, view: FileView, t: Turn)
    requires b.disk.staging.Some? && b.disk.stagingManifest.Some? && !b.stopped && !AfterFile(b, p, view, t).stopped
    requires RowAt(b.disk.stagingManifest.value, p) == RowAt(rows0, p) && forall d: DocId | d.path == p :: d !in b.disk.staging.value
    ensures var b' := AfterFile(b, p, view, t).disk;
      && TurnLeft(rows0, b'.stagingManifest.value, b'.staging.value, p, view, t)
      && forall d: DocId | d.path != p :: d in b'.staging.value <==> d in b.disk.staging.value
  {
    TurnStopsIff(b, rows0, p, view, t);
    if Chunked(view) {
      StoresItsOwn(b.disk.staging.value, p, view, t.file);
    }
  }

  /** Vectors of a path are staged under it. */
  lemma StoresItsOwn(vecs: Collection, p: Path, view: FileView, l: FileLuck)
    requires Chunked(view) && !l.RowLost?
    ensures var ids := SetOf(IdsOf(p, view.chunked.value));
            forall d: DocId :: d in StagedVectors(vecs, p, view, l) <==> d in vecs || (d in ids && (l.Broken? ==> d in l.left))
    ensures forall d | d in SetOf(IdsOf(p, view.chunked.value)) :: d.path == p
    ensures view.chunked.value.chunks == [] <==> SetOf(IdsOf(p, view.chunked.value)) == {}
  {
    if view.chunked.value.chunks != [] {
      assert IdsOf(p, view.chunked.value)[0] in SetOf(IdsOf(p, view.chunked.value));
    }
  }

  lemma TurnLeftStays(rows0: Manifest, rows: Manifest, vecs: Collection, rows': Manifest, vecs': Collection, p: Path, view: FileView,
                      t: Turn)
    requires TurnLeft(rows0, rows, vecs, p, view, t) && RowAt(rows', p) == RowAt(rows, p)
    requires forall d: DocId | d.path == p :: d in vecs' <==> d in vecs
    ensures TurnLeft(rows0, rows', vecs', p, view, t)
  {
  }

  lemma OneMoreStaged(rows0: Manifest, rows: Manifest, vecs: Collection, rows': Manifest, vecs': Collection, done: seq<Path>, p: Path,
                      view: map<Path, FileView>, turns: nat -> Turn)
    requires Staged(rows0, rows, vecs, done, view, turns) && p in view && p !in done
    requires TurnLeft(rows0, rows', vecs', p, view[p], turns(|done|))
    requires forall q | q != p :: RowAt(rows', q) == RowAt(rows, q)
    requires forall d: DocId | d.path != p :: d in vecs' <==> d in vecs
    ensures Staged(rows0, rows', vecs', done + [p], view, turns)
  {
    var all := done + [p];
    assert all[|done|] == p && forall i: nat | i < |done| :: all[i] == done[i] && done[i] != p;
    forall i: nat | i < |all| ensures TurnLeft(rows0, rows', vecs', all[i], view[all[i]], turns(i)) {
      if i < |done| {
        assert TurnLeft(rows0, rows, vecs, done[i], view[done[i]], turns(i));
        TurnLeftStays(rows0, rows, vecs, rows', vecs', done[i], view[done[i]], turns(i));
      }
    }
  }

  /** Without a file left out these are the rows of a rebuild, over whatever was left over, and
      exactly their vectors. */
  lemma BuildIsBuiltOver(d: Directory, files: seq<Path>, view: map<Path, FileView>, turns: nat -> Turn)
    requires Known(files, view) && d.staging == Some({}) && d.stagingManifest.Some?
    ensures var b := Build(d, files, view, turns);
            !b.stopped && b.failed == 0 ==>
              BuiltOver(d.stagingManifest.value, b.disk.stagingManifest.value, b.disk.staging.value, files, view)
  {
    var b := Build(d, files, view, turns);
    if !b.stopped && b.failed == 0 {
      BuildLeaves(d, files, view, turns);
      BuildStopsIff(d, files, view, turns);
      var rows0, rows, vecs := d.stagingManifest.value, b.disk.stagingManifest.value, b.disk.staging.value;
      assert Skipped(rows0, files, view, turns) == {};
      forall p | p in files
        ensures RowAt(rows, p) == Expected(p, view[p])
        ensures forall x: DocId | x.path == p :: x in vecs <==> x in ExpectedIds(p, view[p])
      {
        var i :| 0 <= i < |files| && files[i] == p;
        assert i !in Skipped(rows0, files, view, turns);
        assert TurnLeft(rows0, rows, vecs, files[i], view[files[i]], turns(i));
      }
    }
  }

  // --- one run ------------------------------------------------------------------------

  predicate Builds(l: Luck) { l.opens && l.wipes && l.opensManifest }

  /** Nothing that serves was deleted by purging a vanished file. */
  predicate PurgesMiss(d: Directory, files: seq<Path>, view: map<Path, FileView>, l: Luck)
    requires forall p | p in files :: p in view
  {
    Builds(l) && d.active.Some? ==> Build(Prepared(d, l), files, view, l.turns).purged !! d.active.value
  }

  /** If the renames were reached, what was moved out was moved back, and no old copy was
      taken for a serving one. */
  predicate RenamesUndone(d: Directory, files: seq<Path>, view: map<Path, FileView>, l: Luck)
    requires forall p | p in files :: p in view
  {
    Builds(l) && !Build(Prepared(d, l), files, view, l.turns).stopped && l.closes ==>
      if d.active.Some? then !l.collection.movedOut || l.collection.restored
      else l.collection.oldGone || d.old_.None? || !l.collection.restored
  }

  /** A run that fails early keeps what serves exactly when its purges missed it and its
      renames were undone. */
  lemma EarlyRunKeepsIff(d: Directory, files: seq<Path>, view: map<Path, FileView>, l: Luck)
    requires (forall p | p in files :: p in view) && Early(ForceOutcome(d, files, view, l))
    ensures Kept(d, ForceOutcome(d, files, view, l)) <==> PurgesMiss(d, files, view, l) && RenamesUndone(d, files, view, l)
  {
    if Builds(l) {
      var b := Build(Prepared(d, l), files, view, l.turns);
      if !b.stopped && l.closes {
        UnpublishedKeepsIff(b.disk.active, b.disk.staging, b.disk.old_, l.collection);
      }
    }
  }

  // --- every run from a given start -----------------------------------------------------

  /** Some file stops every build. */
  predicate Stops(files: seq<Path>, view: map<Path, FileView>)
    requires forall p | p in files :: p in view
  {
    exists p :: p in files && view[p] == Unreadable(Abort)
  }

  /** No file before the `i`-th stops the build. */
  predicate Reached(files: seq<Path>, view: map<Path, FileView>, i: nat)
    requires i <= |files| && forall p | p in files :: p in view
  {
    forall j | 0 <= j < i :: view[files[j]] != Unreadable(Abort)
  }

  predicate NoStrayCopy(d: Directory) { d.active.Some? || d.old_.None? }

  /** No file that vanished has a left-over staging row with an id that serves. */
  predicate NothingToPurge(d: Directory, files: seq<Path>, view: map<Path, FileView>)
    requires forall p | p in files :: p in view
  {
    d.active.Some? && d.stagingManifest.Some? ==> forall i: nat | i < |files| :: !Hits(d, files, view, i)
  }

  predicate Hits(d: Directory, files: seq<Path>, view: map<Path, FileView>, i: nat)
    requires i < |files| && (forall p | p in files :: p in view) && d.active.Some? && d.stagingManifest.Some?
  {
    && Reached(files, view, i) && Gone(view[files[i]]) && files[i] in d.stagingManifest.value
    && !(SetOf(d.stagingManifest.value[files[i]].docIds) !! d.active.value)
  }

  /** A build that was not stopped reached every file, and it leaves the rows of others. */
  lemma {:induction false} BuildReaches(d: Directory, files: seq<Path>, view: map<Path, FileView>, turns: nat -> Turn)
    requires d.staging.Some? && d.stagingManifest.Some? && Known(files, view)
    ensures var b := Build(d, files, view, turns);
      && (!b.stopped ==> Reached(files, view, |files|))
      && (forall q | q !in files :: RowAt(b.disk.stagingManifest.value, q) == RowAt(d.stagingManifest.value, q))
    decreases |files|
  {
    if files != [] {
      var n := |files| - 1;
      var done, p := files[..n], files[n];
      assert files == done + [p] && p !in done;
      BuildReaches(d, done, view, turns);
      var b := Build(d, done, view, turns);
      if !b.stopped {
        TurnReaches(b, p, view[p], turns(n));
      }
    }
  }

  lemma TurnReaches(b: Built, p: Path, view: FileView, t: Turn)
    requires b.disk.staging.Some? && b.disk.stagingManifest.Some? && !b.stopped
    ensures !AfterFile(b, p, view, t).stopped ==> view != Unreadable(Abort)
    ensures forall q | q != p :: RowAt(AfterFile(b, p, view, t).disk.stagingManifest.value, q) == RowAt(b.disk.stagingManifest.value, q)
  {
  }

  /** What the build may purge: ids of left-over rows of vanished files it reaches. */
  lemma {:induction false} PurgedIsLeftOver(d: Directory, files: seq<Path>, view: map<Path, FileView>, turns: nat -> Turn)
    requires d.staging.Some? && d.stagingManifest.Some? && Known(files, view)
    ensures forall x | x in Build(d, files, view, turns).purged :: SomeLeftOver(d, files, view, x)
    decreases |files|
  {
    if files != [] {
      var n := |files| - 1;
      var done, p := files[..n], files[n];
      assert files == done + [p] && p !in done;
      PurgedIsLeftOver(d, done, view, turns);
      BuildReaches(d, done, view, turns);
      var b := Build(d, done, view, turns);
      forall x | x in Build(d, files, view, turns).purged ensures SomeLeftOver(d, files, view, x) {
        if x in b.purged {
          LeftOverGrows(d, done, p, files, view, x);
        } else {
          assert RowAt(b.disk.stagingManifest.value, p) == RowAt(d.stagingManifest.value, p);
          assert LeftOver(d, files, view, n, x);
        }
      }
    }
  }

  predicate SomeLeftOver(d: Directory, files: seq<Path>, view: map<Path, FileView>, x: DocId)
    requires (forall p | p in files :: p in view) && d.stagingManifest.Some?
  {
    exists i: nat :: i < |files| && LeftOver(d, files, view, i, x)
  }

  lemma LeftOverGrows(d: Directory, done: seq<Path>, p: Path, files: seq<Path>, view: map<Path, FileView>, x: DocId)
    requires files == done + [p] && (forall q | q in files :: q in view) && d.stagingManifest.Some?
    requires SomeLeftOver(d, done, view, x)
    ensures SomeLeftOver(d, files, view, x)
  {
    var i: nat :| i < |done| && LeftOver(d, done, view, i, x);
    assert LeftOver(d, files, view, i, x);
  }

  predicate LeftOver(d: Directory, files: seq<Path>, view: map<Path, FileView>, i: nat, x: DocId)
    requires i < |files| && (forall p | p in files :: p in view) && d.stagingManifest.Some?
  {
    && Reached(files, view, i) && Gone(view[files[i]]) && files[i] in d.stagingManifest.value
    && x in d.stagingManifest.value[files[i]].docIds
  }

  function Smooth(): nat -> Turn { (_: nat) => Turn(false, Fine, Purges) }

  /** When nothing goes wrong, every vanished file that is reached is purged. */
  lemma {:induction false} SmoothBuildPurges(d: Directory, files: seq<Path>, view: map<Path, FileView>)
    requires d.staging.Some? && d.stagingManifest.Some? && Known(files, view)
    ensures var b := Build(d, files, view, Smooth());
      && (b.stopped <==> !Reached(files, view, |files|))
      && (forall i: nat, x | i < |files| && LeftOver(d, files, view, i, x) :: x in b.purged)
    decreases |files|
  {
    if files != [] {
      var n := |files| - 1;
      var done, p := files[..n], files[n];
      assert files == done + [p] && p !in done;
      SmoothBuildPurges(d, done, view);
      BuildReaches(d, done, view, Smooth());
      var b := Build(d, done, view, Smooth());
      assert Reached(files, view, n) <==> Reached(done, view, n);
      forall i: nat, x | i < |files| && LeftOver(d, files, view, i, x) ensures x in Build(d, files, view, Smooth()).purged {
        if i < n {
          assert LeftOver(d, done, view, i, x);
        } else {
          assert RowAt(b.disk.stagingManifest.value, p) == RowAt(d.stagingManifest.value, p);
        }
      }
    }
  }

  const GoodSwap := SwapLuck(true, true, true, true, true)

  /** A run in which nothing goes wrong but what is named. */
  function Run(discards: bool, closes: bool, collection: SwapLuck, manifest: SwapLuck): Luck {
    Luck(true, true, discards, true, Smooth(), closes, collection, true, true, manifest, true)
  }

  lemma StopsIsUnreached(files: seq<Path>, view: map<Path, FileView>)
    requires forall p | p in files :: p in view
    ensures Stops(files, view) <==> !Reached(files, view, |files|)
  {
    if !Reached(files, view, |files|) {
      var j :| 0 <= j < |files| && view[files[j]] == Unreadable(Abort);
      assert files[j] in files;
    }
  }

  /** A run that misses what is to be purged, whatever it meets. */
  lemma NothingToPurgeMisses(d: Directory, files: seq<Path>, view: map<Path, FileView>, l: Luck)
    requires Known(files, view) && (l.discards || NothingToPurge(d, files, view))
    ensures PurgesMiss(d, files, view, l)
  {
    var d0 := Prepared(d, l);
    PurgedIsLeftOver(d0, files, view, l.turns);
    if d.active.Some? {
      forall x | x in Build(d0, files, view, l.turns).purged ensures x !in d.active.value {
        assert SomeLeftOver(d0, files, view, x);
        var i: nat :| i < |files| && LeftOver(d0, files, view, i, x);
        assert d0.stagingManifest == d.stagingManifest && !Hits(d, files, view, i);
      }
    }
  }

  /** If an old copy is taken for a missing serving one, or what was moved out is not moved
      back, a run that reaches the renames does not keep what serves. */
  lemma FailedRenames(d: Directory, files: seq<Path>, view: map<Path, FileView>, restored: bool)
    requires Known(files, view) && !Stops(files, view)
    requires if d.active.Some? then !restored else d.old_.Some? && restored
    ensures var o := ForceOutcome(d, files, view, Run(true, true, SwapLuck(false, true, false, restored, false), GoodSwap));
            Early(o) && !Kept(d, o)
  {
    var l := Run(true, true, SwapLuck(false, true, false, restored, false), GoodSwap);
    StopsIsUnreached(files, view);
    SmoothBuildPurges(Prepared(d, l), files, view);
    EarlyRunKeepsIff(d, files, view, l);
  }

  /** If the staging manifest cannot be discarded, a run that is stopped before the renames
      has deleted vectors that serve. */
  lemma FailedDiscard(d: Directory, files: seq<Path>, view: map<Path, FileView>)
    requires Known(files, view) && !NothingToPurge(d, files, view)
    ensures var o := ForceOutcome(d, files, view, Run(false, false, GoodSwap, GoodSwap)); Early(o) && !Kept(d, o)
  {
    var l := Run(false, false, GoodSwap, GoodSwap);
    var i: nat :| i < |files| && Hits(d, files, view, i);
    var x :| x in SetOf(d.stagingManifest.value[files[i]].docIds) && x in d.active.value;
    SmoothBuildPurges(Prepared(d, l), files, view);
    assert LeftOver(Prepared(d, l), files, view, i, x);
    EarlyRunKeepsIff(d, files, view, l);
  }

  /** Given that a needed rollback rename works: every run that fails at or before the
      publishing rename keeps what serves if and only if no old copy lies beside a missing
      serving one (unless no build can finish) and there is nothing to purge. */
  lemma AllKeptIff(d: Directory, files: seq<Path>, view: map<Path, FileView>)
    requires Known(files, view)
    ensures (forall l: Luck | l.collection.restored && Early(ForceOutcome(d, files, view, l)) :: Kept(d, ForceOutcome(d, files, view, l)))
       <==> (NoStrayCopy(d) || Stops(files, view)) && NothingToPurge(d, files, view)
  {
    if (NoStrayCopy(d) || Stops(files, view)) && NothingToPurge(d, files, view) {
      forall l: Luck | l.collection.restored && Early(ForceOutcome(d, files, view, l)) ensures Kept(d, ForceOutcome(d, files, view, l)) {
        RestoredRunKeeps(d, files, view, l);
      }
    } else if !NothingToPurge(d, files, view) {
      FailedDiscard(d, files, view);
    } else {
      FailedRenames(d, files, view, true);
    }
  }

  lemma RestoredRunKeeps(d: Directory, files: seq<Path>, view: map<Path, FileView>, l: Luck)
    requires Known(files, view) && (NoStrayCopy(d) || Stops(files, view)) && (l.discards || NothingToPurge(d, files, view))
    requires l.collection.restored && Early(ForceOutcome(d, files, view, l))
    ensures Kept(d, ForceOutcome(d, files, view, l))
  {
    NothingToPurgeMisses(d, files, view, l);
    StopsIsUnreached(files, view);
    BuildReaches(Prepared(d, l), files, view, l.turns);
    EarlyRunKeepsIff(d, files, view, l);
  }

  /** Given that the left-over staging manifest can be discarded as well, only the old copy
      matters. */
  lemma AllKeptWithDiscardIff(d: Directory, files: seq<Path>, view: map<Path, FileView>)
    requires Known(files, view)
    ensures (forall l: Luck | l.discards && l.collection.restored && Early(ForceOutcome(d, files, view, l)) ::
               Kept(d, ForceOutcome(d, files, view, l)))
       <==> NoStrayCopy(d) || Stops(files, view)
  {
    if NoStrayCopy(d) || Stops(files, view) {
      forall l: Luck | l.discards && l.collection.restored && Early(ForceOutcome(d, files, view, l))
        ensures Kept(d, ForceOutcome(d, files, view, l)) {
        RestoredRunKeeps(d, files, view, l);
      }
    } else {
      FailedRenames(d, files, view, true);
    }
  }

  /** Without relying on the rollback rename nothing is kept for sure unless there is
      nothing to move, or no build can finish. */
  lemma AllKeptWithoutRollbackIff(d: Directory, files: seq<Path>, view: map<Path, FileView>)
    requires Known(files, view)
    ensures (forall l: Luck | l.discards && Early(ForceOutcome(d, files, view, l)) :: Kept(d, ForceOutcome(d, files, view, l)))
       <==> (d.active.None? && d.old_.None?) || Stops(files, view)
  {
    if (d.active.None? && d.old_.None?) || Stops(files, view) {
      forall l: Luck | l.discards && Early(ForceOutcome(d, files, view, l)) ensures Kept(d, ForceOutcome(d, files, view, l)) {
        NothingToPurgeMisses(d, files, view, l);
        StopsIsUnreached(files, view);
        BuildReaches(Prepared(d, l), files, view, l.turns);
        EarlyRunKeepsIff(d, files, view, l);
      }
    } else {
      FailedRenames(d, files, view, d.active.None?);
    }
  }

  // --- after the publishing rename -----------------------------------------------------------

  /** Nothing is left of what the new collection replaced. */
  predicate CopyRemoved(d: Directory, l: Luck) {
    l.collection.oldRemoved || (d.active.None? && (l.collection.oldGone || d.old_.None?))
  }

  /** After the publishing rename the new collection serves; the new manifest serves with it
      exactly when the replaced copy could be removed and both manifest renames worked. */
  lemma LateRunServes(d: Directory, files: seq<Path>, view: map<Path, FileView>, l: Luck)
    requires (forall p | p in files :: p in view) && d.manifest.Some? && !Early(ForceOutcome(d, files, view, l))
    ensures var b := Build(Prepared(d, l), files, view, l.turns);
            var o := ForceOutcome(d, files, view, l);
      && o.disk.active == b.disk.staging
      && (o.progress.ManifestSwapped? <==> CopyRemoved(d, l) && l.manifest.movedOut && l.manifest.published)
      && (o.progress.ManifestSwapped? ==> o.disk.manifest == b.disk.stagingManifest)
      && (o.progress.Swapped? ==>
            (o.disk.manifest == d.manifest <==> !CopyRemoved(d, l) || !l.manifest.movedOut || l.manifest.restored))
      && (o.ok ==> o.progress.ManifestSwapped?)
  {
  }

  predicate Publishes(present: bool, l: SwapLuck) { (present ==> l.movedOut) && l.published }

  /** How far a run gets, told from what it meets: a file that is left out does not keep the
      others from being published. */
  lemma RunGetsTo(d: Directory, files: seq<Path>, view: map<Path, FileView>, l: Luck)
    requires Known(files, view) && d.manifest.Some?
    ensures var o := ForceOutcome(d, files, view, l);
            var finishes := Builds(l) && !SomeStop(files, view, l.turns);
      && (!Early(o) <==> finishes && l.closes && Publishes(d.active.Some?, l.collection))
      && (o.progress.ManifestSwapped? <==> !Early(o) && CopyRemoved(d, l) && Publishes(true, l.manifest))
      && (o.ok <==> o.progress.ManifestSwapped? && l.manifest.oldRemoved && l.reopens)
      && (finishes ==> o.failed == |Skipped(LeftOverRows(d, l), files, view, l.turns)|)
  {
    BuildStopsIff(Prepared(d, l), files, view, l.turns);
  }

  /** The rows in the staging manifest when the build begins. */
  function LeftOverRows(d: Directory, l: Luck): Manifest {
    if l.discards || d.stagingManifest.None? then map[] else d.stagingManifest.value
  }

  /** Nothing fails that concerns more than one file. */
  predicate Works(files: seq<Path>, view: map<Path, FileView>, l: Luck)
    requires forall p | p in files :: p in view
  {
    && Builds(l) && !SomeStop(files, view, l.turns) && l.closes && l.reopens
    && l.collection.movedOut && l.collection.published && l.collection.oldRemoved
    && l.manifest.movedOut && l.manifest.published && l.manifest.oldRemoved
  }

  /** A run whose only mishaps are files it leaves out succeeds. */
  lemma WorkingRunSucceeds(d: Directory, files: seq<Path>, view: map<Path, FileView>, l: Luck)
    requires Known(files, view) && d.manifest.Some? && Works(files, view, l)
    ensures ForceOutcome(d, files, view, l).ok && ForceOutcome(d, files, view, l).progress.ManifestSwapped?
  {
    RunGetsTo(d, files, view, l);
  }

  /** So the two are published together for sure only where no run can publish at all. */
  lemma PublishedTogetherIff(d: Directory, files: seq<Path>, view: map<Path, FileView>)
    requires Known(files, view) && d.manifest.Some?
    ensures (forall l: Luck | !Early(ForceOutcome(d, files, view, l)) :: ForceOutcome(d, files, view, l).progress.ManifestSwapped?)
       <==> Stops(files, view)
  {
    var l := Run(true, true, GoodSwap, GoodSwap.(movedOut := false));
    StopsIsUnreached(files, view);
    SmoothBuildPurges(Prepared(d, l), files, view);
    if Stops(files, view) {
      forall l: Luck ensures Early(ForceOutcome(d, files, view, l)) {
        BuildReaches(Prepared(d, l), files, view, l.turns);
      }
    } else {
      assert !Early(ForceOutcome(d, files, view, l));
      LateRunServes(d, files, view, l);
    }
  }

  /** A run that succeeds without a failed file serves a rebuild exactly when no row of
      another file is left over in the staging manifest. */
  lemma SuccessIsRebuildIff(d: Directory, files: seq<Path>, view: map<Path, FileView>, l: Luck)
    requires Known(files, view) && d.manifest.Some?
    requires ForceOutcome(d, files, view, l).ok && ForceOutcome(d, files, view, l).failed == 0
    ensures var o := ForceOutcome(d, files, view, l);
      && o.disk.active.Some? && o.disk.manifest.Some?
      && (IsRebuild(o.disk.manifest.value, files, view) <==>
            l.discards || d.stagingManifest.None? || forall p | p in d.stagingManifest.value :: p in files)
      && (IsRebuild(o.disk.manifest.value, files, view) ==> Exact(o.disk.manifest.value, o.disk.active.value))
  {
    var d0 := Prepared(d, l);
    var b := Build(d0, files, view, l.turns);
    LateRunServes(d, files, view, l);
    BuildIsBuiltOver(d0, files, view, l.turns);
    BuiltOverIsRebuildIff(d0.stagingManifest.value, b.disk.stagingManifest.value, b.disk.staging.value, files, view);
  }

  // --- runs that show it ------------------------------------------------------------------------

  /** A file that vanished after an interrupted force run had indexed it, and that is still
      served: its staging row cannot be discarded, and the run is stopped later. Its vectors
      are gone while its row still serves. */
  lemma PurgeTakesServingVectors(p: Path, c: Content)
    requires c.chunks != []
    ensures var row := RowOf(p, c);
            var d := Directory(Some(SetOf(row.docIds)), None, None, Some(map[p := row]), Some(map[p := row]), None);
            var o := ForceOutcome(d, [p], map[p := Unreadable(NotExist)], Run(false, false, GoodSwap, GoodSwap));
            Early(o) && o.disk.active == Some({}) && o.disk.manifest == Some(map[p := row]) && row.docIds != []
  {
    var row := RowOf(p, c);
    var d := Directory(Some(SetOf(row.docIds)), None, None, Some(map[p := row]), Some(map[p := row]), None);
    var view := map[p := Unreadable(NotExist)];
    var d0 := Prepared(d, Run(false, false, GoodSwap, GoodSwap));
    assert [p][..0] == [];
    assert Build(d0, [p], view, Smooth()) == AfterFile(Build(d0, [], view, Smooth()), p, view[p], Smooth()(0));
    assert SetOf(row.docIds) - SetOf(row.docIds) == {};
  }

  /** The renames fail over a missing serving collection with an old copy beside it: the old
      copy serves afterwards. */
  lemma OldCopyServes(stray: Collection, rows: Manifest)
    ensures var d := Directory(None, None, Some(stray), Some(rows), None, None);
            var o := ForceOutcome(d, [], map[], Run(true, true, SwapLuck(false, true, false, true, false), GoodSwap));
            Early(o) && o.disk.active == Some(stray)
  {
  }

  /** The publishing rename and its rollback fail: nothing serves. */
  lemma NothingServes(active: Collection, rows: Manifest)
    ensures var d := Directory(Some(active), None, None, Some(rows), None, None);
            var o := ForceOutcome(d, [], map[], Run(true, true, SwapLuck(true, true, false, false, true), GoodSwap));
            Early(o) && o.disk.active == None && o.disk.old_ == Some(active)
  {
    assert active - {} == active;
  }

  /** A file with new chunks, and a manifest that cannot be moved out: the new collection
      serves with the old row, whose vectors it does not have. */
  lemma OldRowServes(p: Path, before: Content, now: Content)
    requires |before.chunks| == |now.chunks| == 1 && before.chunks != now.chunks
    ensures var row := RowOf(p, before);
            var d := Directory(Some(SetOf(row.docIds)), None, None, Some(map[p := row]), None, None);
            var view := map[p := Readable(0, 0, now, Some(now))];
            var o := ForceOutcome(d, [p], view, Run(true, true, GoodSwap, GoodSwap.(movedOut := false)));
            && o.progress.Swapped? && o.disk.manifest == Some(map[p := row])
            && o.disk.active.Some? && row.docIds[0] !in o.disk.active.value
  {
    var row := RowOf(p, before);
    var d := Directory(Some(SetOf(row.docIds)), None, None, Some(map[p := row]), None, None);
    var view := map[p := Readable(0, 0, now, Some(now))];
    var l := Run(true, true, GoodSwap, GoodSwap.(movedOut := false));
    var d0 := Prepared(d, l);
    assert [p][..0] == [];
    var b := Build(d0, [p], view, Smooth());
    assert b == AfterFile(Build(d0, [], view, Smooth()), p, view[p], Smooth()(0));
    assert b.disk.staging == Some({} + SetOf(IdsOf(p, now)));
    assert row.docIds[0].chunk == before.chunks[0];
    forall x | x in IdsOf(p, now) ensures x != row.docIds[0] {
      assert x.chunk == now.chunks[0];
    }
    LateRunServes(d, [p], view, l);
  }
}
