/**
 A force reindex: build beside the serving index, then publish by renames.

 `active` and `manifest` are what searches are served from; `staging` and `old_` are the
 neighbouring paths the renames move through. What every operation of a run meets, whether
 it succeeds and what a failure leaves, is given by its `Luck`, so a statement about every
 `Luck` is one about every run.
 */
module Staging {
  import opened Options
  import opened IndexProtocol
  import opened IndexStores
  import opened Indexing

  type Collection = set<DocId>
  type Manifest = map<Path, Row>

  datatype Directory = Directory(
    active: Option<Collection>,
    staging: Option<Collection>,
    old_: Option<Collection>,
    manifest: Option<Manifest>,
    stagingManifest: Option<Manifest>,
    oldManifest: Option<Manifest>)

  // --- what a run may meet ---------------------------------------------------------

  /** One file: chunked, embedded and stored, with some vectors left behind, or with all
      stored and its row lost. */
  datatype FileLuck = Fine | Broken(left: Collection, skippable: bool) | RowLost(undone: bool)

  /** Purging a vanished file. A failed delete may spare some of the vectors. */
  datatype PurgeLuck = Purges | NoRead | NoDelete(spared: Collection) | NoDrop

  datatype Turn = Turn(stopped: bool, file: FileLuck, purge: PurgeLuck)

  /** Replacing one path: removing the old copy, moving the present one out, publishing the
      staged one, moving the old one back if that failed, removing the old one if not. */
  datatype SwapLuck = SwapLuck(oldGone: bool, movedOut: bool, published: bool, restored: bool, oldRemoved: bool)

  datatype Luck = Luck(
    opens: bool,
    wipes: bool,
    discards: bool,
    opensManifest: bool,
    turns: nat -> Turn,
    closes: bool,
    collection: SwapLuck,
    tidies: bool,
    tidiesManifest: bool,
    manifest: SwapLuck,
    reopens: bool)

  // --- publishing ---------------------------------------------------------------------

  datatype Renamed<T> = Renamed(present: Option<T>, staged: Option<T>, old_: Option<T>, published: bool)

  /** The renames that replace what is present by what is staged. */
  function Swap<T>(present: Option<T>, staged: Option<T>, old_: Option<T>, l: SwapLuck): Renamed<T> {
    var left := if l.oldGone then None else old_;
    if staged.None? then Renamed(present, staged, old_, false)
    else if present.Some? && !l.movedOut then Renamed(present, staged, left, false)
    else
      var aside := if present.Some? then present else left;
      if l.published then Renamed(staged, None, if l.oldRemoved then None else aside, true)
      else if aside.Some? && l.restored then Renamed(aside, staged, None, false)
      else Renamed(None, staged, aside, false)
  }

  /** An unpublished swap leaves what was present exactly when it was not moved out or was
      moved back and, with nothing present, when no old copy was taken for it. */
  lemma UnpublishedKeepsIff<T>(present: Option<T>, staged: Option<T>, old_: Option<T>, l: SwapLuck)
    requires staged.Some? && !Swap(present, staged, old_, l).published
    ensures Swap(present, staged, old_, l).present == present <==>
            if present.Some? then !l.movedOut || l.restored else l.oldGone || old_.None? || !l.restored
  {
  }

  /** How far a force run got. */
  datatype Progress = Building | Closing | Swapped | ManifestSwapped

  /** `purged` is what the run has deleted from the serving collection. */
  datatype Built = Built(disk: Directory, failed: nat, stopped: bool, purged: Collection)

  datatype Outcome = Outcome(disk: Directory, progress: Progress, failed: nat, ok: bool)

  // --- the build ----------------------------------------------------------------------------

  /** What reindexing one path into the staging stores comes to, if it does not succeed. */
  function FileError(view: FileView, l: FileLuck): Option<Err> {
    if view.Unreadable? then Some(view.err)
    else if view.chunked.None? then Some(NotExist)
    else match l
      case Fine => None
      case Broken(_, skippable) => Some(if skippable then Skippable else Abort)
      case RowLost(_) => Some(Abort)
  }

  function StagedVectors(staging: Collection, p: Path, view: FileView, l: FileLuck): Collection {
    if view.Unreadable? || view.chunked.None? then staging
    else
      var ids := SetOf(IdsOf(p, view.chunked.value));
      match l
      case Fine => staging + ids
      case Broken(left, _) => staging + left * ids
      case RowLost(undone) => if undone then staging + ids - ids else staging + ids
  }

  function StagedRows(rows: Manifest, p: Path, view: FileView, l: FileLuck): Manifest {
    if FileError(view, l).Some? then rows
    else
      var c := view.chunked.value;
      if c.chunks == [] then rows - {p}
      else rows[p := Row(view.mtime, view.size, |c.chunks|, IdsOf(p, c), Some(view.content))]
  }

  /** What a purge deletes from the serving collection: ids of the row in staging. */
  function PurgedIds(rows: Manifest, p: Path, l: PurgeLuck): Collection {
    if p !in rows then {}
    else match l
      case NoRead => {}
      case NoDelete(spared) => SetOf(rows[p].docIds) - spared
      case _ => SetOf(rows[p].docIds)
  }

  predicate PurgeFails(rows: Manifest, p: Path, l: PurgeLuck) { l.NoRead? || (p in rows && !l.Purges?) }

  function Serving(active: Option<Collection>, purged: Collection): (r: Option<Collection>)
    ensures r == active <==> active.None? || purged !! active.value
  {
    assert active.Some? ==> (active.value - purged == active.value <==> purged !! active.value);
    if active.Some? then Some(active.value - purged) else None
  }

  lemma ServingTwice(active: Option<Collection>, a: Collection, b: Collection)
    ensures Serving(Serving(active, a), b) == Serving(active, a + b)
  {
    if active.Some? {
      assert active.value - a - b == active.value - (a + b);
    }
  }

  /** What one turn of the file loop deletes from the serving collection. */
  function PurgedBy(rows: Manifest, p: Path, view: FileView, t: Turn): Collection {
    if t.stopped || !Gone(view) then {} else PurgedIds(rows, p, t.purge)
  }

  /** One turn of the file loop. */
  function AfterFile(b: Built, p: Path, view: FileView, t: Turn): (b': Built)
    requires b.disk.staging.Some? && b.disk.stagingManifest.Some?
    ensures var ids := PurgedBy(b.disk.stagingManifest.value, p, view, t);
            b'.purged == b.purged + ids && b'.disk.active == Serving(b.disk.active, ids)
  {
    if t.stopped then b.(stopped := true)
    else
      var rows := StagedRows(b.disk.stagingManifest.value, p, view, t.file);
      var d := b.disk.(staging := Some(StagedVectors(b.disk.staging.value, p, view, t.file)), stagingManifest := Some(rows));
      match FileError(view, t.file)
      case None => b.(disk := d)
      case Some(Abort) => b.(disk := d, stopped := true)
      case Some(Skippable) => b.(disk := d, failed := b.failed + 1)
      case Some(NotExist) =>
        var ids := PurgedIds(rows, p, t.purge);
        Built(d.(active := Serving(d.active, ids), stagingManifest := Some(if PurgeFails(rows, p, t.purge) then rows else rows - {p})),
              if PurgeFails(rows, p, t.purge) then b.failed + 1 else b.failed, false, b.purged + ids)
  }

  predicate Known(files: seq<Path>, view: map<Path, FileView>) {
    (forall p | p in files :: p in view) && forall i, j | 0 <= i < j < |files| :: files[i] != files[j]
  }

  function Build(d: Directory, files: seq<Path>, view: map<Path, FileView>, turns: nat -> Turn): (b: Built)
    requires d.staging.Some? && d.stagingManifest.Some? && forall p | p in files :: p in view
    ensures b.disk.staging.Some? && b.disk.stagingManifest.Some?
    ensures b.disk == d.(active := b.disk.active, staging := b.disk.staging, stagingManifest := b.disk.stagingManifest)
    ensures b.disk.active == Serving(d.active, b.purged)
    decreases |files|
  {
    if files == [] then Built(d, 0, false, {}) else
      var n := |files| - 1;
      assert files == files[..n] + [files[n]];
      var b := Build(d, files[..n], view, turns);
      if b.stopped then b
      else
        var b' := AfterFile(b, files[n], view[files[n]], turns(n));
        ServingTwice(d.active, b.purged, PurgedBy(b.disk.stagingManifest.value, files[n], view[files[n]], turns(n)));
        b'
  }

  // --- the run --------------------------------------------------------------------------------

  /** After renames that failed: what is staged is discarded, as far as that works. */
  function Tidied(d: Directory, l: Luck): Directory {
    d.(staging := if l.tidies then None else d.staging, stagingManifest := if l.tidiesManifest then None else d.stagingManifest)
  }

  /** Renames the collection, then the manifest. */
  function Promote(d: Directory, l: Luck): (r: (Directory, Progress, bool))
    ensures !r.1.Building?
  {
    if !l.closes then (d, Closing, false)
    else
      var c := Swap(d.active, d.staging, d.old_, l.collection);
      var d1 := d.(active := c.present, staging := c.staged, old_ := c.old_);
      if !c.published || c.old_.Some? then
        (Tidied(d1, l), if c.published then Swapped else Closing, false)
      else
        var m := Swap(d1.manifest, d1.stagingManifest, d1.oldManifest, l.manifest);
        var d2 := d1.(manifest := m.present, stagingManifest := m.staged, oldManifest := m.old_);
        // The replaced file is removed last; when there was none, that is an error.
        (d2, if m.published then ManifestSwapped else Swapped,
         m.published && m.old_.None? && (d1.manifest.Some? || (d1.oldManifest.Some? && !l.manifest.oldGone)) && l.reopens)
  }

  /** The staging stores the build starts from. */
  function Prepared(d: Directory, l: Luck): Directory {
    d.(staging := Some({}), stagingManifest := if l.discards || d.stagingManifest.None? then Some(map[]) else d.stagingManifest)
  }

  /** The part of a force run that follows the journal replay. */
  function ForceOutcome(d: Directory, files: seq<Path>, view: map<Path, FileView>, l: Luck): Outcome
    requires forall p | p in files :: p in view
  {
    if !l.opens then Outcome(d, Building, 0, false)
    else if !l.wipes then Outcome(if d.staging.None? then d.(staging := Some({})) else d, Building, 0, false)
    else if !l.opensManifest then
      Outcome(d.(staging := Some({}), stagingManifest := if l.discards then None else d.stagingManifest), Building, 0, false)
    else
      var b := Build(Prepared(d, l), files, view, l.turns);
      if b.stopped then Outcome(b.disk, Building, b.failed, false)
      else var (d', progress, ok) := Promote(b.disk, l); Outcome(d', progress, b.failed, ok)
  }

  // --- what a build is --------------------------------------------------------------------------

  /** The rows of the files done are those of a rebuild, others are as they were left over;
      the vectors are exactly those of the files done. */
  ghost predicate BuiltOver(rows0: Manifest, rows: Manifest, vecs: Collection, done: seq<Path>, view: map<Path, FileView>) {
    && (forall p | p in done :: p in view)
    && (forall p :: RowAt(rows, p) == if p in done then Expected(p, view[p]) else RowAt(rows0, p))
    && (forall d: DocId :: d in vecs <==> d.path in done && d in ExpectedIds(d.path, view[d.path]))
  }

  ghost function ExpectedIds(p: Path, view: FileView): set<DocId> {
    if Expected(p, view).Some? then SetOf(Expected(p, view).value.docIds) else {}
  }

  /** Over left-over rows the result is a rebuild exactly when none is left of another file. */
  lemma BuiltOverIsRebuildIff(rows0: Manifest, rows: Manifest, vecs: Collection, files: seq<Path>, view: map<Path, FileView>)
    requires BuiltOver(rows0, rows, vecs, files, view)
    ensures IsRebuild(rows, files, view) <==> forall p | p in rows0 :: p in files
    ensures IsRebuild(rows, files, view) ==> Exact(rows, vecs)
  {
    if IsRebuild(rows, files, view) {
      forall p | p in rows0 ensures p in files {
        assert RowAt(rows, p) == if p in files then Expected(p, view[p]) else None;
      }
      forall d: DocId ensures d in vecs <==> d in RowIds(rows, d.path) {
        assert RowAt(rows, d.path) == if d.path in files then Expected(d.path, view[d.path]) else None;
      }
    }
  }

  // --- the object ---------------------------------------------------------------------------------

  class StagedIndex {
    var active: Option<Collection>
    var staging: Option<Collection>
    var old_: Option<Collection>
    var manifest: Option<Manifest>
    var stagingManifest: Option<Manifest>
    var oldManifest: Option<Manifest>

    ghost function View(): Directory
      reads this
    {
      Directory(active, staging, old_, manifest, stagingManifest, oldManifest)
    }

    constructor (d: Directory)
      ensures View() == d
    {
      active, staging, old_ := d.active, d.staging, d.old_;
      manifest, stagingManifest, oldManifest := d.manifest, d.stagingManifest, d.oldManifest;
    }

    /** Replaces the serving collection by the staged one. Failing to remove the replaced
        copy is an error too. */
    method PromoteStagingCollection(l: SwapLuck) returns (ok: bool, published: bool)
      modifies this`active, this`staging, this`old_
      ensures Renamed(active, staging, old_, published) == old(Swap(active, staging, old_, l))
      ensures ok <==> published && old_.None?
    {
      ok, published := false, false;
      if staging.None? {
        return;
      }
      if l.oldGone { old_ := None; }
      if active.Some? {
        if !l.movedOut {
          return;
        }
        active, old_ := None, active;
      }
      if !l.published {
        if old_.Some? && l.restored {
          active, old_ := old_, None;
        }
        return;
      }
      active, staging, published := staging, None, true;
      if l.oldRemoved { old_ := None; }
      ok := old_.None?;
    }

    method PromoteStagingManifest(l: SwapLuck) returns (ok: bool, published: bool)
      modifies this`manifest, this`stagingManifest, this`oldManifest
      ensures Renamed(manifest, stagingManifest, oldManifest, published) == old(Swap(manifest, stagingManifest, oldManifest, l))
      ensures ok <==> published && oldManifest.None? && (old(manifest).Some? || (old(oldManifest).Some? && !l.oldGone))
    {
      ok, published := false, false;
      if stagingManifest.None? {
        return;
      }
      if l.oldGone { oldManifest := None; }
      if manifest.Some? {
        if !l.movedOut {
          return;
        }
        manifest, oldManifest := None, manifest;
      }
      if !l.published {
        if oldManifest.Some? && l.restored {
          manifest, oldManifest := oldManifest, None;
        }
        return;
      }
      manifest, stagingManifest, published := stagingManifest, None, true;
      ok := oldManifest.Some? && l.oldRemoved;
      if l.oldRemoved { oldManifest := None; }
    }

    /** Closes both collections, then renames the collection and the manifest. */
    method PromoteStaging(l: Luck) returns (ok: bool, progress: Progress)
      modifies this
      ensures (View(), progress, ok) == Promote(old(View()), l)
    {
      ok, progress := false, Closing;
      if !l.closes {
        return;
      }
      var swapped, published := PromoteStagingCollection(l.collection);
      if published {
        progress := Swapped;
      }
      if !swapped {
        if l.tidies { staging := None; }
        if l.tidiesManifest { stagingManifest := None; }
        return;
      }
      swapped, published := PromoteStagingManifest(l.manifest);
      if published {
        progress := ManifestSwapped;
      }
      ok := swapped && l.reopens;
    }

    /** Reindexes one path into the staging stores, never looking at an old row. */
    method ForceFile(p: Path, view: FileView, l: FileLuck) returns (err: Option<Err>)
      requires staging.Some? && stagingManifest.Some?
      modifies this`staging, this`stagingManifest
      ensures err == FileError(view, l)
      ensures staging == Some(StagedVectors(old(staging).value, p, view, l))
      ensures stagingManifest == Some(StagedRows(old(stagingManifest).value, p, view, l))
    {
      if view.Unreadable? {
        return Some(view.err);
      }
      if view.chunked.None? {
        return Some(NotExist);
      }
      var ids := IdsOf(p, view.chunked.value);
      match l
      case Broken(left, skippable) =>
        staging := Some(staging.value + left * SetOf(ids));
        return Some(if skippable then Skippable else Abort);
      case RowLost(undone) =>
        staging := Some(staging.value + SetOf(ids));
        if undone { staging := Some(staging.value - SetOf(ids)); }
        return Some(Abort);
      case Fine =>
        staging := Some(staging.value + SetOf(ids));
        if |ids| == 0 {
          stagingManifest := Some(stagingManifest.value - {p});
        } else {
          var row := Row(view.mtime, view.size, |ids|, ids, Some(view.content));
          stagingManifest := Some(stagingManifest.value[p := row]);
        }
        return None;
    }

    /** A file that vanished is purged from the staging manifest, but its vectors are
        deleted from the serving collection. */
    method ForcePurge(p: Path, l: PurgeLuck) returns (failed: bool)
      requires stagingManifest.Some?
      modifies this`active, this`stagingManifest
      ensures failed == PurgeFails(old(stagingManifest).value, p, l)
      ensures active == Serving(old(active), PurgedIds(old(stagingManifest).value, p, l))
      ensures stagingManifest == if failed then old(stagingManifest) else Some(old(stagingManifest).value - {p})
    {
      if l.NoRead? {
        assert active.Some? ==> active.value - {} == active.value;
        return true;
      }
      if p !in stagingManifest.value {
        assert active.Some? ==> active.value - {} == active.value;
        assert stagingManifest.value - {p} == stagingManifest.value;
        return false;
      }
      if active.Some? {
        var ids := SetOf(stagingManifest.value[p].docIds);
        active := Some(active.value - if l.NoDelete? then ids - l.spared else ids);
      }
      if !l.Purges? {
        return true;
      }
      stagingManifest := Some(stagingManifest.value - {p});
      failed := false;
    }

    method ForceBuild(files: seq<Path>, view: map<Path, FileView>, turns: nat -> Turn) returns (stopped: bool, failed: nat)
      requires staging.Some? && stagingManifest.Some? && forall p | p in files :: p in view
      modifies this`active, this`staging, this`stagingManifest
      ensures var b := Build(old(View()), files, view, turns);
              View() == b.disk && stopped == b.stopped && failed == b.failed
    {
      stopped, failed := false, 0;
      ghost var b := Built(View(), 0, false, {});
      for i := 0 to |files|
        invariant b == Build(old(View()), files[..i], view, turns)
        invariant View() == b.disk && !b.stopped && failed == b.failed
      {
        var p, t := files[i], turns(i);
        assert files[..i + 1][..i] == files[..i] && files[..i + 1][i] == p;
        b := AfterFile(b, p, view[p], t);
        if t.stopped {
          BuildStops(old(View()), files, i + 1, view, turns);
          return true, failed;
        }
        var err := ForceFile(p, view[p], t.file);
        if err == Some(Abort) {
          BuildStops(old(View()), files, i + 1, view, turns);
          return true, failed;
        }
        if err == Some(NotExist) {
          var bad := ForcePurge(p, t.purge);
          if bad {
            failed := failed + 1;
          }
        } else if err.Some? {
          failed := failed + 1;
        }
      }
      assert files[..|files|] == files;
    }

    /** A force run, for an identity that has not changed. */
    method ForceRun(files: seq<Path>, view: map<Path, FileView>, l: Luck) returns (ok: bool, failed: nat, progress: Progress)
      requires forall p | p in files :: p in view
      modifies this
      ensures Outcome(View(), progress, failed, ok) == ForceOutcome(old(View()), files, view, l)
    {
      ok, failed, progress := false, 0, Building;
      if !l.opens {
        return;
      }
      if staging.None? { staging := Some({}); }
      if !l.wipes {
        return;
      }
      staging := Some({});
      if l.discards { stagingManifest := None; }
      if !l.opensManifest {
        return;
      }
      if stagingManifest.None? { stagingManifest := Some(map[]); }
      var stopped;
      stopped, failed := ForceBuild(files, view, l.turns);
      if stopped {
        return;
      }
      ok, progress := PromoteStaging(l);
    }
  }

  /** A build that has stopped stays as it is. */
  lemma {:induction false} BuildStops(d: Directory, files: seq<Path>, n: nat, view: map<Path, FileView>, turns: nat -> Turn)
    requires d.staging.Some? && d.stagingManifest.Some? && n <= |files| && forall p | p in files :: p in view
    requires Build(d, files[..n], view, turns).stopped
    ensures Build(d, files, view, turns) == Build(d, files[..n], view, turns)
    decreases |files|
  {
    if n == |files| {
      assert files[..n] == files;
    } else {
      var k := |files| - 1;
      assert files[..k][..n] == files[..n];
      BuildStops(d, files[..k], n, view, turns);
    }
  }
}
