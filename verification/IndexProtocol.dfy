/**
 The index directory as a crash-prone state machine.

 Three stores are written one after the other and never commit together: the
 manifest (a row per path), the vector collection (a set of document ids) and the
 cleanup journal. Every write of an incremental run is one event. A crash is simply the
 end of the list of events, and the next run starts with a `RunBegan` event, so a statement
 about all prefixes of all legal event lists is a statement about every crash point of
 every sequence of incremental runs. Force runs publish by renames instead and are in
 `Staging`; histories of both kinds of runs are in `Starting`.
 */
module IndexProtocol {
  import opened Options

  type Path = string
  type Snippet = string

  /** A file's bytes (up to equality of hashes) together with the chunks the
      deterministic chunker cuts out of them. */
  datatype Content = Content(raw: string, chunks: seq<Snippet>)

  /** Document ids are hashes taken to be injective: an id determines the path,
      the chunk's ordinal within its file and the chunk itself. */
  datatype DocId = DocId(path: Path, ordinal: nat, chunk: Snippet)

  /** A manifest row. `hash` is None for rows written before hashes were recorded. */
  datatype Row = Row(mtime: int, size: int, chunkCount: nat, docIds: seq<DocId>, hash: Option<Content>)

  /** The journal is None when its file does not exist. */
  datatype Disk = Disk(rows: map<Path, Row>, vecs: set<DocId>, journal: Option<seq<DocId>>)

  /** The disk plus what the argument needs to remember about the past:
      `doomed`  paths whose vectors were deleted for removal and whose row is still there,
      `touched` paths whose row was written by the current run,
      `settled` the current run has finished its journal replay,
      `clean`   every replay so far left an empty journal,
      `steady`  every row was chunked from the bytes that its hash was taken of,
      `linked`  the binary contains the native vector store. */
  datatype State = State(disk: Disk, doomed: set<Path>, touched: set<Path>, settled: bool, clean: bool, steady: bool,
                         linked: bool)

  datatype Event =
    | RunBegan
    | JournalOpened
    | Replayed(removed: set<DocId>)
    | JournalCleared
    | ReplayEnded
    | VectorsAdded(path: Path, added: set<DocId>)
    | RolledBack(path: Path, removed: set<DocId>)
    | RowPut(path: Path, row: Row)
    | StaleJournaled(path: Path, ids: seq<DocId>)
    | StaleDeleted(path: Path, removed: set<DocId>)
    | VectorsRemoved(path: Path, removed: set<DocId>)
    | RowDropped(path: Path)

  /** Ids of the chunks of one file: ordinals count from one in emission order. */
  function IdsOf(p: Path, c: Content): (ids: seq<DocId>)
    ensures |ids| == |c.chunks|
    ensures forall i | 0 <= i < |ids| :: ids[i] == DocId(p, i + 1, c.chunks[i])
  {
    seq(|c.chunks|, i requires 0 <= i < |c.chunks| => DocId(p, i + 1, c.chunks[i]))
  }

  /** A row the indexer writes: it has a hash, and its ids are those of the file's chunks,
      of which there is at least one. */
  ghost predicate Written(p: Path, row: Row) {
    && row.hash.Some? && row.docIds != [] && row.chunkCount == |row.docIds|
    && forall i | 0 <= i < |row.docIds| :: row.docIds[i].path == p && row.docIds[i].ordinal == i + 1
  }

  ghost predicate AllWritten(rows: map<Path, Row>) {
    forall p | p in rows :: Written(p, rows[p])
  }

  /** The row's ids are those of the content whose hash it records. */
  ghost predicate RowConsistent(p: Path, row: Row) {
    row.hash.Some? ==>
      row.hash.value.chunks != [] && row.docIds == IdsOf(p, row.hash.value) && row.chunkCount == |row.docIds|
  }

  ghost predicate Consistent(rows: map<Path, Row>) {
    forall p | p in rows :: RowConsistent(p, rows[p])
  }

  function Pending(journal: Option<seq<DocId>>): seq<DocId> {
    if journal.Some? then journal.value else []
  }

  ghost predicate OwnedBy(p: Path, ids: set<DocId>) {
    forall d | d in ids :: d.path == p
  }

  ghost function RowIds(rows: map<Path, Row>, p: Path): set<DocId> {
    if p in rows then (set d | d in rows[p].docIds) else {}
  }

  /** What the code is entitled to do next. */
  ghost predicate Enabled(s: State, e: Event) {
    match e
    case RunBegan => true
    case JournalOpened => s.disk.journal.None?
    case Replayed(removed) => !s.settled && forall d | d in removed :: d in Pending(s.disk.journal)
    case JournalCleared => !s.settled && s.disk.journal.Some?
    case ReplayEnded => !s.settled
    case VectorsAdded(p, added) => OwnedBy(p, added)
    case RolledBack(p, removed) => OwnedBy(p, removed) && removed !! RowIds(s.disk.rows, p)
    case RowPut(p, row) =>
      && s.settled && p !in s.touched && Written(p, row)
      && (s.linked ==> forall d | d in row.docIds :: d in s.disk.vecs)
    case StaleJournaled(p, ids) =>
      && s.disk.journal.Some? && p in s.touched
      && (forall d | d in ids :: d.path == p && d.ordinal > 0 && d !in RowIds(s.disk.rows, p))
    case StaleDeleted(p, removed) => OwnedBy(p, removed) && removed !! RowIds(s.disk.rows, p)
    case VectorsRemoved(p, removed) => removed <= RowIds(s.disk.rows, p)
    case RowDropped(p) => true
  }

  ghost function Apply(s: State, e: Event): State {
    var d := s.disk;
    match e
    case RunBegan => s.(touched := {}, settled := false)
    case JournalOpened => s.(disk := d.(journal := Some([])))
    case Replayed(removed) => s.(disk := d.(vecs := d.vecs - removed))
    case JournalCleared => s.(disk := d.(journal := None))
    case ReplayEnded => s.(settled := true, clean := s.clean && Pending(d.journal) == [])
    case VectorsAdded(_, added) => s.(disk := d.(vecs := d.vecs + added))
    case RolledBack(_, removed) => s.(disk := d.(vecs := d.vecs - removed))
    case RowPut(p, row) =>
      s.(disk := d.(rows := d.rows[p := row]), touched := s.touched + {p}, doomed := s.doomed - {p},
         steady := s.steady && RowConsistent(p, row))
    case StaleJournaled(_, ids) => s.(disk := d.(journal := Some(Pending(d.journal) + ids)))
    case StaleDeleted(_, removed) => s.(disk := d.(vecs := d.vecs - removed))
    case VectorsRemoved(p, removed) => s.(disk := d.(vecs := d.vecs - removed), doomed := s.doomed + {p})
    case RowDropped(p) => s.(disk := d.(rows := d.rows - {p}), doomed := s.doomed - {p})
  }

  /** The writes since a known state, oldest first. */
  datatype Trace = Began(state: State) | Then(before: Trace, last: Event)

  ghost function Now(t: Trace): State {
    match t
    case Began(s) => s
    case Then(before, e) => Apply(Now(before), e)
  }

  ghost function Origin(t: Trace): State {
    match t
    case Began(s) => s
    case Then(before, _) => Origin(before)
  }

  ghost predicate Legal(t: Trace) {
    t.Then? ==> Legal(t.before) && Enabled(Now(t.before), t.last)
  }

  /** `a` is a crash point of `t`: the same writes, cut short. */
  ghost predicate CrashPoint(a: Trace, t: Trace) {
    a == t || (t.Then? && CrashPoint(a, t.before))
  }

  lemma {:induction false} CrashPointTransitive(a: Trace, b: Trace, c: Trace)
    requires CrashPoint(a, b) && CrashPoint(b, c)
    ensures CrashPoint(a, c)
  {
    if b != c {
      CrashPointTransitive(a, b, c.before);
    }
  }

  lemma {:induction false} SameOrigin(a: Trace, t: Trace)
    requires CrashPoint(a, t)
    ensures Origin(a) == Origin(t)
  {
    if a != t {
      SameOrigin(a, t.before);
    }
  }

  // --- the safety properties -------------------------------------------------

  /** Every id a committed row records belongs to that row's path; ordinals start at one. */
  ghost predicate RowsOwn(rows: map<Path, Row>) {
    forall p | p in rows :: forall d | d in rows[p].docIds :: d.path == p && d.ordinal > 0
  }

  /** Every doc id of every committed row is in the store, except for doomed paths. */
  ghost predicate Live(s: State) {
    forall p | p in s.disk.rows && p !in s.doomed :: forall d | d in s.disk.rows[p].docIds :: d in s.disk.vecs
  }

  /** No id waiting in the journal is an id of a committed row. */
  ghost predicate JournalDead(s: State) {
    forall d | d in Pending(s.disk.journal) :: d !in RowIds(s.disk.rows, d.path)
  }

  /** What holds whether or not the rows have their vectors. */
  ghost predicate Base(s: State) {
    && RowsOwn(s.disk.rows)
    && (forall d | d in Pending(s.disk.journal) :: d.ordinal > 0)
    && (s.steady ==> Consistent(s.disk.rows))
    && (s.clean ==> JournalDead(s))
    && (s.clean && s.settled ==> forall d | d in Pending(s.disk.journal) :: d.path in s.touched)
  }

  ghost predicate Inv(s: State) {
    Base(s) && (s.clean && s.linked ==> Live(s))
  }

  predicate WritesRows(e: Event) { e.RowPut? || e.RowDropped? }

  predicate DeletesVectors(e: Event) { e.Replayed? || e.RolledBack? || e.StaleDeleted? || e.VectorsRemoved? }

  lemma RowsKeepBase(s: State, e: Event)
    requires Base(s) && Enabled(s, e) && WritesRows(e)
    ensures Base(Apply(s, e))
  {
  }

  lemma OthersKeepBase(s: State, e: Event)
    requires Base(s) && Enabled(s, e) && !WritesRows(e)
    ensures Base(Apply(s, e))
  {
  }

  lemma StepKeepsBase(s: State, e: Event)
    requires Base(s) && Enabled(s, e)
    ensures Base(Apply(s, e))
  {
    if WritesRows(e) {
      RowsKeepBase(s, e);
    } else {
      OthersKeepBase(s, e);
    }
  }

  lemma RowsKeepLive(s: State, e: Event)
    requires Live(s) && s.linked && Enabled(s, e) && WritesRows(e)
    ensures Live(Apply(s, e))
  {
  }

  lemma DeletesKeepLive(s: State, e: Event)
    requires RowsOwn(s.disk.rows) && JournalDead(s) && Live(s) && Enabled(s, e) && DeletesVectors(e)
    ensures Live(Apply(s, e))
  {
  }

  lemma StepKeepsInv(s: State, e: Event)
    requires Inv(s) && Enabled(s, e)
    ensures Inv(Apply(s, e))
  {
    StepKeepsBase(s, e);
    if s.clean && s.linked {
      if WritesRows(e) {
        RowsKeepLive(s, e);
      } else if DeletesVectors(e) {
        DeletesKeepLive(s, e);
      }
    }
  }

  /** The invariant holds at every crash point of every sequence of incremental runs. */
  lemma {:induction false} EveryCrashPointKeepsInv(t: Trace, at: Trace)
    requires Legal(t) && Inv(Origin(t)) && CrashPoint(at, t)
    ensures Inv(Now(at)) && Legal(at) && Origin(at) == Origin(t)
  {
    if t.Then? {
      if at == t {
        EveryCrashPointKeepsInv(t.before, t.before);
        StepKeepsInv(Now(t.before), t.last);
      } else {
        EveryCrashPointKeepsInv(t.before, at);
      }
    }
  }

  /** What holds without the vectors, at the end of such runs. */
  lemma {:induction false} RunsKeepBase(t: Trace)
    requires Legal(t) && Base(Origin(t))
    ensures Base(Now(t))
  {
    if t.Then? {
      RunsKeepBase(t.before);
      StepKeepsBase(Now(t.before), t.last);
    }
  }

  /** Once the rows have their vectors, no later write takes one away, until a replay leaves
      a journal that is not empty. */
  lemma {:induction false} StaysLive(a: Trace, at: Trace, t: Trace)
    requires CrashPoint(a, at) && CrashPoint(at, t) && Legal(t) && Inv(Now(a)) && Now(t).clean
    ensures Inv(Now(at)) && Now(at).clean
  {
    if at != t {
      StaysLive(a, at, t.before);
    } else if a != t {
      StaysLive(a, t.before, t.before);
      StepKeepsInv(Now(t.before), t.last);
    }
  }

  /** Every replay recorded in the trace ends with an empty journal. */
  ghost predicate ReplaysSettle(t: Trace) {
    t.Then? ==>
      ReplaysSettle(t.before) && (t.last.ReplayEnded? ==> Pending(Now(t.before).disk.journal) == [])
  }

  lemma {:induction false} SettledReplaysStayClean(t: Trace, at: Trace)
    requires ReplaysSettle(t) && Origin(t).clean && CrashPoint(at, t)
    ensures Now(at).clean && Now(at).linked == Origin(t).linked
  {
    if t.Then? {
      SettledReplaysStayClean(t.before, if at == t then t.before else at);
    }
  }

  ghost predicate Fresh(s: State) {
    s == State(Disk(map[], {}, None), {}, {}, false, true, true, s.linked)
  }

  lemma StepKeepsWritten(s: State, e: Event)
    requires Enabled(s, e) && AllWritten(s.disk.rows)
    ensures AllWritten(Apply(s, e).disk.rows)
  {
  }

  /** From such rows, or none, every row is one the indexer writes. */
  lemma {:induction false} RowsAreWritten(t: Trace, at: Trace)
    requires Legal(t) && CrashPoint(at, t)
    requires AllWritten(Origin(t).disk.rows)
    ensures AllWritten(Now(at).disk.rows)
  {
    if t.Then? {
      RowsAreWritten(t.before, if at == t then t.before else at);
      if at == t {
        StepKeepsWritten(Now(t.before), t.last);
      }
    }
  }

  /** From a directory where it holds, be it new or what a successful force run left, over
      any incremental runs whose replays settle, at every crash point: committed rows have
      their vectors and the journal holds no live id. */
  lemma NoLiveVectorIsLost(t: Trace, at: Trace)
    requires Inv(Origin(t)) && Origin(t).clean && Origin(t).linked
    requires Legal(t) && ReplaysSettle(t) && CrashPoint(at, t)
    ensures Live(Now(at))
    ensures JournalDead(Now(at))
  {
    EveryCrashPointKeepsInv(t, at);
    SettledReplaysStayClean(t, at);
  }

  /** Replaying a journal that the argument calls clean removes no committed id. */
  lemma ReplayRemovesNothingLive(s: State, removed: set<DocId>, p: Path)
    requires Inv(s) && s.clean && Enabled(s, Replayed(removed))
    ensures removed !! RowIds(s.disk.rows, p)
  {
    forall d | d in removed ensures d !in RowIds(s.disk.rows, p) {
      assert d !in RowIds(s.disk.rows, d.path);
    }
  }

  // --- the exact condition ---------------------------------------------------

  /** Some content that has the id among its chunks. */
  function ContentWith(d: DocId): (c: Content)
    ensures |c.chunks| == d.ordinal
    ensures d.ordinal > 0 ==> d in IdsOf(d.path, c)
  {
    var c := Content("", seq(d.ordinal, _ => d.chunk));
    assert d.ordinal > 0 ==> IdsOf(d.path, c)[d.ordinal - 1] == d;
    c
  }

  /** The row that indexing this content writes. */
  function RowOf(p: Path, c: Content): Row { Row(0, 0, |c.chunks|, IdsOf(p, c), Some(c)) }

  /** How a left-over journal record kills a live vector: the file goes back to
      content that has the journaled id, its row commits, and the next run replays. */
  ghost function Revival(s: State, d: DocId): Trace {
    Then(Then(Then(Recommit(s, d),
      RowPut(d.path, RowOf(d.path, ContentWith(d)))),
      RunBegan),
      Replayed({d}))
  }

  ghost function Recommit(s: State, d: DocId): Trace {
    Then(Then(Began(s),
      ReplayEnded),
      VectorsAdded(d.path, set x | x in IdsOf(d.path, ContentWith(d))))
  }

  lemma RevivalLosesLiveVector(s: State, d: DocId)
    requires s.linked && !s.settled && s.touched == {} && d in Pending(s.disk.journal) && d.ordinal > 0
    ensures Legal(Revival(s, d)) && !Live(Now(Revival(s, d)))
  {
    var ids := IdsOf(d.path, ContentWith(d));
    var t1 := Then(Began(s), ReplayEnded);
    var t2 := Recommit(s, d);
    var t3 := Then(t2, RowPut(d.path, RowOf(d.path, ContentWith(d))));
    var t4 := Then(t3, RunBegan);
    assert Now(t1) == Apply(s, ReplayEnded) && Legal(t1);
    assert Legal(t2);
    assert Now(t2).disk.vecs == s.disk.vecs + (set x | x in ids) && Legal(t3);
    assert Now(t4).disk.journal == s.disk.journal && Legal(t4);
    var end := Now(Revival(s, d));
    assert end == Apply(Now(t4), Replayed({d}));
    assert d.path in end.disk.rows && d.path !in end.doomed;
    assert d in end.disk.rows[d.path].docIds && d !in end.disk.vecs;
  }

  /** The trace continues `s` with the end of its replay; later replays settle. */
  ghost predicate Continues(t: Trace, s: State) {
    && t.Then?
    && if t.before == Began(s) then t.last.ReplayEnded?
       else Continues(t.before, s) && (t.last.ReplayEnded? ==> Pending(Now(t.before).disk.journal) == [])
  }

  lemma {:induction false} ContinuationsSettle(t: Trace, s: State)
    requires Continues(t, s) && Pending(s.disk.journal) == []
    ensures ReplaysSettle(t) && Origin(t) == s
  {
    if t.before != Began(s) {
      ContinuationsSettle(t.before, s);
    }
  }

  lemma RevivalContinues(s: State, d: DocId)
    ensures Continues(Revival(s, d), s)
  {
    var t2 := Recommit(s, d);
    assert Continues(t2, s);
    assert Continues(Then(Then(t2, RowPut(d.path, RowOf(d.path, ContentWith(d)))), RunBegan), s);
  }

  /** Ending a replay is safe for every future exactly when the journal is empty. */
  lemma SafeIffReplaySettled(s: State)
    requires Inv(s) && s.clean && s.linked && !s.settled && s.touched == {}
    ensures (forall t :: Legal(t) && Continues(t, s) ==> Live(Now(t))) <==> Pending(s.disk.journal) == []
  {
    if Pending(s.disk.journal) == [] {
      forall t | Legal(t) && Continues(t, s) ensures Live(Now(t)) {
        ContinuationsSettle(t, s);
        EveryCrashPointKeepsInv(t, t);
        SettledReplaysStayClean(t, t);
      }
    } else {
      var d := Pending(s.disk.journal)[0];
      RevivalLosesLiveVector(s, d);
      RevivalContinues(s, d);
    }
  }

  /** No run starts and no journal file is created after `a`. */
  ghost predicate SameRun(a: Trace, t: Trace) {
    a == t || (t.Then? && SameRun(a, t.before) && !t.last.RunBegan? && !t.last.JournalOpened?)
  }

  /** A run that removes the journal file has nowhere to record stale ids, so its
      crash insurance is off: no record is written until a later run reopens it. */
  lemma {:induction false} ClearedJournalTakesNoRecord(a: Trace, t: Trace)
    requires Now(a).disk.journal.None? && Legal(t) && SameRun(a, t)
    ensures Now(t).disk.journal.None?
    ensures forall p, ids | ids != [] :: !Enabled(Now(t), StaleJournaled(p, ids))
  {
    if a != t {
      ClearedJournalTakesNoRecord(a, t.before);
      StepCreatesNoJournal(Now(t.before), t.last);
    }
  }

  lemma StepCreatesNoJournal(s: State, e: Event)
    requires s.disk.journal.None? && Enabled(s, e) && !e.RunBegan? && !e.JournalOpened?
    ensures Apply(s, e).disk.journal.None?
  {
  }

  /** A run can record stale ids if and only if the journal was there when its replay ended. */
  lemma RecordsIffJournalKept(a: Trace, t: Trace, p: Path, ids: seq<DocId>)
    requires Now(a).settled && Legal(t) && SameRun(a, t)
    requires p in Now(t).touched && forall d | d in ids :: d.path == p && d.ordinal > 0 && d !in RowIds(Now(t).disk.rows, p)
    ensures Enabled(Now(t), StaleJournaled(p, ids)) <==> Now(a).disk.journal.Some?
  {
    JournalStays(a, t);
  }

  lemma StepLeavesJournal(s: State, e: Event)
    requires s.settled && Enabled(s, e) && !e.RunBegan? && !e.JournalOpened?
    ensures Apply(s, e).settled && (Apply(s, e).disk.journal.Some? <==> s.disk.journal.Some?)
  {
  }

  lemma {:induction false} JournalStays(a: Trace, t: Trace)
    requires Now(a).settled && Legal(t) && SameRun(a, t)
    ensures Now(t).settled && (Now(t).disk.journal.Some? <==> Now(a).disk.journal.Some?)
  {
    if a != t {
      JournalStays(a, t.before);
      StepLeavesJournal(Now(t.before), t.last);
    }
  }
}
