/**
 Vector searches, background indexing and service shutdown.

 Each task is one goroutine: a search, a Start and the indexing goroutine it
 launches, a Shutdown, or a recovery of a stale collection lock. `Section` names
 the critical sections they execute and `Pc` the place a task has reached between
 two of them; a step lets one task execute one section, so a run is any
 interleaving of any number of tasks. Shutdown may run many times and concurrently.
 */
module Shutdown {
  import opened Options

  /** What the mutexes, the wait group and the lock file protect. `closeLock` and
      `indexLock` name the task that holds them. */
  datatype Shared = Shared(
    shuttingDown: bool,
    inFlight: nat,
    running: bool,
    closed: bool,
    closeLock: Option<nat>,
    indexLock: Option<nat>,
    shutdownState: nat)

  datatype Pc =
    | Searching
    // Start, up to launching the goroutine
    | StartChecked
    | StartLocked
    | StartHolding
    | StartRefused
    | StartSaving
    | StartAborting
    | StartUnlocked
    // the indexing goroutine
    | RunExecuting
    | RunReturned
    | RunUnlocking
    | RunUnlocked
    // Shutdown
    | Entered
    | WaitingIndex
    | Closing
    | ClosingHolding
    | WaitingSearches(indexIdle: bool)
    | Trying(indexIdle: bool, searchesIdle: bool)
    | ClosingStore(indexIdle: bool)
    | ClosingEmbedder(indexIdle: bool, searchesIdle: bool, holds: bool)
    | Finishing(indexIdle: bool, searchesIdle: bool, holds: bool)
    | Leaving(holds: bool)
    // recovery of a stale collection lock
    | Recovering
  {
    predicate HoldsCloseLock() {
      StartHolding? || StartRefused? || StartSaving? || StartAborting? || RunExecuting? || RunReturned? ||
      RunUnlocking? || ClosingHolding? || ClosingStore? || Recovering? ||
      ((ClosingEmbedder? || Finishing? || Leaving?) && holds)
    }

    predicate HoldsIndexLock() {
      StartLocked? || StartHolding? || StartSaving? || StartAborting? || StartUnlocked? || RunExecuting? || RunReturned?
    }

    /** A run counts as running from the flag going up until it goes down. */
    predicate Active() { StartSaving? || RunExecuting? || RunReturned? || RunUnlocking? || RunUnlocked? }

    predicate PastStop() {
      WaitingIndex? || Closing? || ClosingHolding? || WaitingSearches? || Trying? || ClosingStore? ||
      ClosingEmbedder? || Finishing?
    }

    predicate SawIndexIdle() {
      (WaitingSearches? || Trying? || ClosingStore? || ClosingEmbedder? || Finishing?) && indexIdle
    }

    predicate SawSearchesIdle() {
      ClosingStore? || ((Trying? || ClosingEmbedder? || Finishing?) && searchesIdle)
    }
  }

  datatype Section =
    | SearchBegin
    | SearchEnd
    | StartCheck
    | StartLock(acquired: bool)
    | StartTakeCloseLock
    | StartDecide
    | StartLeave
    | StartSave(saved: bool)
    | StartAbort
    | StartRelease
    | RunReturn
    | RunReleaseIndexLock
    | RunReleaseCloseLock
    | RunFinish
    | ShutdownEnter
    | ShutdownStop
    | IndexWait(timedOut: bool)
    | CloseTakeLock
    | CloseSet
    | SearchWait(timedOut: bool)
    | TryCloseLock(acquired: bool)
    | StoreClose
    | EmbedderClose
    | Finish
    | Leave
    | RecoverTry
    | RecoverDone

  /** The place a task and the shared state are in. */
  datatype Local = Local(shared: Shared, pc: Option<Pc>)

  function Initial(): Shared { Shared(false, 0, false, false, None, None, 0) }

  /** Whether a task at `l.pc` may execute the section now. */
  predicate Permitted(l: Local, e: Section) {
    var g := l.shared;
    match e
    case SearchBegin => l.pc.None? && !g.shuttingDown
    case SearchEnd => l.pc == Some(Searching) && g.inFlight > 0
    case StartCheck => l.pc.None? && !g.closed && !g.running
    case StartLock(acquired) => l.pc == Some(StartChecked) && (acquired ==> g.indexLock.None?)
    case StartTakeCloseLock => l.pc == Some(StartLocked) && g.closeLock.None?
    case StartDecide => l.pc == Some(StartHolding)
    case StartLeave => l.pc == Some(StartRefused)
    case StartSave(_) => l.pc == Some(StartSaving)
    case StartAbort => l.pc == Some(StartAborting)
    case StartRelease => l.pc == Some(StartUnlocked)
    case RunReturn => l.pc == Some(RunExecuting)
    case RunReleaseIndexLock => l.pc == Some(RunReturned)
    case RunReleaseCloseLock => l.pc == Some(RunUnlocking)
    case RunFinish => l.pc == Some(RunUnlocked)
    case ShutdownEnter => l.pc.None? && g.shutdownState != 2
    case ShutdownStop => l.pc == Some(Entered)
    case IndexWait(timedOut) => l.pc == Some(WaitingIndex) && (timedOut || !g.running)
    case CloseTakeLock => l.pc == Some(Closing) && g.closeLock.None?
    case CloseSet => l.pc == Some(ClosingHolding)
    case SearchWait(timedOut) => l.pc.Some? && l.pc.value.WaitingSearches? && (timedOut || g.inFlight == 0)
    case TryCloseLock(acquired) =>
      l.pc.Some? && l.pc.value.Trying? && (acquired ==> l.pc.value.searchesIdle && g.closeLock.None?)
    case StoreClose => l.pc.Some? && l.pc.value.ClosingStore?
    case EmbedderClose => l.pc.Some? && l.pc.value.ClosingEmbedder?
    case Finish => l.pc.Some? && l.pc.value.Finishing?
    case Leave => l.pc.Some? && l.pc.value.Leaving?
    case RecoverTry => l.pc.None? && g.closeLock.None?
    case RecoverDone => l.pc == Some(Recovering)
  }

  /** What the section makes of the shared state and of task `t`'s place. */
  function After(l: Local, t: nat, e: Section): Local
    requires Permitted(l, e)
  {
    var g := l.shared;
    match e
    case SearchBegin => Local(g.(inFlight := g.inFlight + 1), Some(Searching))
    case SearchEnd => Local(g.(inFlight := g.inFlight - 1), None)
    case StartCheck => Local(g, Some(StartChecked))
    case StartLock(acquired) => if acquired then Local(g.(indexLock := Some(t)), Some(StartLocked)) else Local(g, None)
    case StartTakeCloseLock => Local(g.(closeLock := Some(t)), Some(StartHolding))
    case StartDecide =>
      if g.closed || g.running then Local(g.(indexLock := None), Some(StartRefused))
      else Local(g.(running := true), Some(StartSaving))
    case StartLeave => Local(g.(closeLock := None), None)
    case StartSave(saved) =>
      if saved then Local(g, Some(RunExecuting)) else Local(g.(running := false), Some(StartAborting))
    case StartAbort => Local(g.(closeLock := None), Some(StartUnlocked))
    case StartRelease => Local(g.(indexLock := None), None)
    case RunReturn => Local(g, Some(RunReturned))
    case RunReleaseIndexLock => Local(g.(indexLock := None), Some(RunUnlocking))
    case RunReleaseCloseLock => Local(g.(closeLock := None), Some(RunUnlocked))
    case RunFinish => Local(g.(running := false), None)
    case ShutdownEnter => Local(if g.shutdownState == 0 then g.(shutdownState := 1) else g, Some(Entered))
    case ShutdownStop => Local(g.(shuttingDown := true), Some(WaitingIndex))
    case IndexWait(timedOut) => Local(g, Some(if timedOut then WaitingSearches(false) else Closing))
    case CloseTakeLock => Local(g.(closeLock := Some(t)), Some(ClosingHolding))
    case CloseSet => Local(g.(closed := true, closeLock := None), Some(WaitingSearches(true)))
    case SearchWait(timedOut) => Local(g, Some(Trying(l.pc.value.indexIdle, !timedOut)))
    case TryCloseLock(acquired) =>
      var pc := l.pc.value;
      if acquired then Local(g.(closeLock := Some(t)), Some(ClosingStore(pc.indexIdle)))
      else Local(g, Some(ClosingEmbedder(pc.indexIdle, pc.searchesIdle, false)))
    case StoreClose => Local(g, Some(ClosingEmbedder(l.pc.value.indexIdle, true, true)))
    case EmbedderClose =>
      var pc := l.pc.value;
      Local(g, Some(Finishing(pc.indexIdle, pc.searchesIdle, pc.holds)))
    case Finish =>
      var pc := l.pc.value;
      Local(if pc.indexIdle && pc.searchesIdle && pc.holds then g.(shutdownState := 2) else g, Some(Leaving(pc.holds)))
    case Leave => Local(if l.pc.value.holds then g.(closeLock := None) else g, None)
    case RecoverTry => Local(g.(closeLock := Some(t)), Some(Recovering))
    case RecoverDone => Local(g.(closeLock := None), None)
  }

  // --- all tasks together ---------------------------------------------------------

  datatype State = State(shared: Shared, tasks: map<nat, Pc>) {
    function PcOf(t: nat): Option<Pc> { if t in tasks then Some(tasks[t]) else None }
    function At(t: nat): Local { Local(shared, PcOf(t)) }
    function Put(t: nat, l: Local): State {
      State(l.shared, if l.pc.Some? then tasks[t := l.pc.value] else tasks - {t})
    }
  }

  function Apply(s: State, t: nat, e: Section): State
    requires Permitted(s.At(t), e)
  {
    s.Put(t, After(s.At(t), t, e))
  }

  predicate HoldsClose(pc: Option<Pc>) { pc.Some? && pc.value.HoldsCloseLock() }
  predicate HoldsIndex(pc: Option<Pc>) { pc.Some? && pc.value.HoldsIndexLock() }
  predicate IsActive(pc: Option<Pc>) { pc.Some? && pc.value.Active() }

  function Searches(s: State): set<nat> { set t | t in s.tasks && s.tasks[t].Searching? }

  // --- the invariant ---------------------------------------------------------------

  ghost predicate CloseLockExact(s: State) {
    forall t: nat :: s.shared.closeLock == Some(t) <==> HoldsClose(s.PcOf(t))
  }

  ghost predicate IndexLockExact(s: State) {
    forall t: nat :: s.shared.indexLock == Some(t) <==> HoldsIndex(s.PcOf(t))
  }

  /** The running flag is up exactly while one task's run is active. */
  ghost predicate RunningExact(s: State) {
    && (s.shared.running ==> exists t: nat :: IsActive(s.PcOf(t)))
    && (forall t: nat :: IsActive(s.PcOf(t)) ==> s.shared.running)
    && (forall t: nat, u: nat :: IsActive(s.PcOf(t)) && IsActive(s.PcOf(u)) ==> t == u)
  }

  /** The wait group counts the searches in progress. */
  ghost predicate CountExact(s: State) { s.shared.inFlight == |Searches(s)| }

  /** What a single task's place says about the shared flags. */
  predicate Agrees(l: Local) {
    && (l.pc.Some? && (l.pc.value.StartSaving? || l.pc.value.RunExecuting?) ==> !l.shared.closed)
    && (l.pc.Some? && l.pc.value.SawIndexIdle() ==> l.shared.closed)
    && (l.pc.Some? && l.pc.value.PastStop() ==> l.shared.shuttingDown)
    && (l.pc.Some? && l.pc.value.SawSearchesIdle() ==> l.shared.inFlight == 0)
  }

  ghost predicate Agreement(s: State) { forall t: nat :: Agrees(s.At(t)) }

  predicate DoneIsQuiet(g: Shared) { g.shutdownState == 2 ==> g.shuttingDown && g.inFlight == 0 && g.closed }

  ghost predicate Inv(s: State) {
    && CloseLockExact(s)
    && IndexLockExact(s)
    && RunningExact(s)
    && CountExact(s)
    && Agreement(s)
    && DoneIsQuiet(s.shared)
  }

  // --- every section keeps it -----------------------------------------------------

  /** Only the task of the step changes its place. */
  lemma OthersStay(s: State, t: nat, l: Local)
    ensures s.Put(t, l).At(t) == l
    ensures forall u: nat | u != t :: s.Put(t, l).PcOf(u) == s.PcOf(u)
  {
  }

  /** The sections of indexing runs. */
  predicate Indexes(e: Section) {
    || e.StartCheck? || e.StartLock? || e.StartTakeCloseLock? || e.StartDecide? || e.StartLeave? || e.StartSave?
    || e.StartAbort? || e.StartRelease? || e.RunReturn? || e.RunReleaseIndexLock? || e.RunReleaseCloseLock? || e.RunFinish?
  }

  lemma CloseLockInRuns(l: Local, t: nat, e: Section)
    requires Permitted(l, e) && Indexes(e) && (l.shared.closeLock == Some(t) <==> HoldsClose(l.pc))
    ensures After(l, t, e).shared.closeLock == Some(t) <==> HoldsClose(After(l, t, e).pc)
  {
  }

  lemma CloseLockElsewhere(l: Local, t: nat, e: Section)
    requires Permitted(l, e) && !Indexes(e) && (l.shared.closeLock == Some(t) <==> HoldsClose(l.pc))
    ensures After(l, t, e).shared.closeLock == Some(t) <==> HoldsClose(After(l, t, e).pc)
  {
  }

  lemma CloseLockLocal(l: Local, t: nat, e: Section)
    requires Permitted(l, e) && (l.shared.closeLock == Some(t) <==> HoldsClose(l.pc))
    ensures After(l, t, e).shared.closeLock == Some(t) <==> HoldsClose(After(l, t, e).pc)
  {
    if Indexes(e) {
      CloseLockInRuns(l, t, e);
    } else {
      CloseLockElsewhere(l, t, e);
    }
  }

  lemma CloseLockChange(l: Local, t: nat, e: Section)
    requires Permitted(l, e) && (l.shared.closeLock == Some(t) <==> HoldsClose(l.pc))
    ensures After(l, t, e).shared.closeLock == l.shared.closeLock ||
            (After(l, t, e).shared.closeLock.None? && l.shared.closeLock == Some(t)) ||
            (After(l, t, e).shared.closeLock == Some(t) && l.shared.closeLock.None?)
  {
  }

  lemma IndexLockInRuns(l: Local, t: nat, e: Section)
    requires Permitted(l, e) && Indexes(e) && (l.shared.indexLock == Some(t) <==> HoldsIndex(l.pc))
    ensures After(l, t, e).shared.indexLock == Some(t) <==> HoldsIndex(After(l, t, e).pc)
    ensures After(l, t, e).shared.indexLock == l.shared.indexLock ||
            (After(l, t, e).shared.indexLock.None? && l.shared.indexLock == Some(t)) ||
            (After(l, t, e).shared.indexLock == Some(t) && l.shared.indexLock.None?)
  {
  }

  lemma IndexLockElsewhere(l: Local, t: nat, e: Section)
    requires Permitted(l, e) && !Indexes(e) && (l.shared.indexLock == Some(t) <==> HoldsIndex(l.pc))
    ensures After(l, t, e).shared.indexLock == l.shared.indexLock && HoldsIndex(After(l, t, e).pc) == HoldsIndex(l.pc)
  {
  }

  lemma RunningLocal(l: Local, t: nat, e: Section)
    requires Permitted(l, e) && (IsActive(l.pc) ==> l.shared.running)
    ensures IsActive(After(l, t, e).pc) ==> After(l, t, e).shared.running
    ensures After(l, t, e).shared.running == l.shared.running ==> IsActive(After(l, t, e).pc) == IsActive(l.pc)
    ensures After(l, t, e).shared.running && !l.shared.running ==> IsActive(After(l, t, e).pc)
    ensures !After(l, t, e).shared.running && l.shared.running ==> IsActive(l.pc)
  {
  }

  lemma KeepsCloseLock(s: State, t: nat, e: Section)
    requires CloseLockExact(s) && Permitted(s.At(t), e)
    ensures CloseLockExact(Apply(s, t, e))
  {
    OthersStay(s, t, After(s.At(t), t, e));
    CloseLockLocal(s.At(t), t, e);
    CloseLockChange(s.At(t), t, e);
    forall u: nat ensures Apply(s, t, e).shared.closeLock == Some(u) <==> HoldsClose(Apply(s, t, e).PcOf(u)) {
      assert s.shared.closeLock == Some(u) <==> HoldsClose(s.PcOf(u));
    }
  }

  lemma KeepsIndexLock(s: State, t: nat, e: Section)
    requires IndexLockExact(s) && Permitted(s.At(t), e)
    ensures IndexLockExact(Apply(s, t, e))
  {
    OthersStay(s, t, After(s.At(t), t, e));
    if Indexes(e) {
      IndexLockInRuns(s.At(t), t, e);
    } else {
      IndexLockElsewhere(s.At(t), t, e);
    }
    forall u: nat ensures Apply(s, t, e).shared.indexLock == Some(u) <==> HoldsIndex(Apply(s, t, e).PcOf(u)) {
      assert s.shared.indexLock == Some(u) <==> HoldsIndex(s.PcOf(u));
    }
  }

  lemma RunningPut(s: State, t: nat, l: Local)
    requires RunningExact(s)
    requires IsActive(l.pc) ==> l.shared.running
    requires l.shared.running == s.shared.running ==> IsActive(l.pc) == IsActive(s.PcOf(t))
    requires l.shared.running && !s.shared.running ==> IsActive(l.pc)
    requires !l.shared.running && s.shared.running ==> IsActive(s.PcOf(t))
    ensures RunningExact(s.Put(t, l))
  {
    OthersStay(s, t, l);
    var s' := s.Put(t, l);
    if l.shared.running {
      if s.shared.running {
        var u: nat :| IsActive(s.PcOf(u));
        assert IsActive(s'.PcOf(u));
      } else {
        assert IsActive(s'.PcOf(t));
      }
    }
  }

  lemma KeepsRunning(s: State, t: nat, e: Section)
    requires RunningExact(s) && Permitted(s.At(t), e)
    ensures RunningExact(Apply(s, t, e))
  {
    RunningLocal(s.At(t), t, e);
    RunningPut(s, t, After(s.At(t), t, e));
  }

  lemma KeepsCount(s: State, t: nat, e: Section)
    requires CountExact(s) && Permitted(s.At(t), e)
    ensures CountExact(Apply(s, t, e))
  {
    var l := After(s.At(t), t, e);
    var s' := Apply(s, t, e);
    if e.SearchBegin? {
      assert Searches(s') == Searches(s) + {t};
    } else if e.SearchEnd? {
      assert t in Searches(s);
      assert Searches(s') == Searches(s) - {t};
    } else {
      OtherSectionsCount(s.At(t), t, e);
      assert Searches(s') == Searches(s);
    }
  }

  /** No other section touches the count or a search. */
  lemma OtherSectionsCount(l: Local, t: nat, e: Section)
    requires Permitted(l, e) && !e.SearchBegin? && !e.SearchEnd?
    ensures After(l, t, e).shared.inFlight == l.shared.inFlight
    ensures l.pc != Some(Searching) && After(l, t, e).pc != Some(Searching)
  {
  }

  /** The lock holder's section moves no flag that another task's place relies on. */
  lemma AgreesOther(l: Local, t: nat, e: Section, other: Option<Pc>)
    requires Permitted(l, e) && Agrees(l) && Agrees(Local(l.shared, other))
    requires e.CloseSet? && other.Some? ==> !other.value.StartSaving? && !other.value.RunExecuting?
    ensures Agrees(Local(After(l, t, e).shared, other))
  {
  }

  lemma AgreesInRuns(l: Local, t: nat, e: Section)
    requires Permitted(l, e) && Indexes(e) && Agrees(l)
    ensures Agrees(After(l, t, e))
  {
  }

  lemma AgreesSelf(l: Local, t: nat, e: Section)
    requires Permitted(l, e) && Agrees(l)
    ensures Agrees(After(l, t, e))
  {
    if Indexes(e) {
      AgreesInRuns(l, t, e);
    }
  }

  lemma KeepsAgreement(s: State, t: nat, e: Section)
    requires CloseLockExact(s) && Agreement(s) && Permitted(s.At(t), e)
    ensures Agreement(Apply(s, t, e))
  {
    OthersStay(s, t, After(s.At(t), t, e));
    assert Agrees(s.At(t));
    AgreesSelf(s.At(t), t, e);
    forall u: nat | u != t ensures Agrees(Apply(s, t, e).At(u)) {
      assert Agrees(s.At(u));
      if e.CloseSet? {
        assert HoldsClose(s.PcOf(t));
        assert !HoldsClose(s.PcOf(u));
      }
      AgreesOther(s.At(t), t, e, s.PcOf(u));
    }
  }

  lemma DoneLocal(l: Local, t: nat, e: Section)
    requires Permitted(l, e) && Agrees(l) && DoneIsQuiet(l.shared)
    ensures DoneIsQuiet(After(l, t, e).shared)
  {
  }

  lemma StepKeepsInv(s: State, t: nat, e: Section)
    requires Inv(s) && Permitted(s.At(t), e)
    ensures Inv(Apply(s, t, e))
  {
    KeepsCloseLock(s, t, e);
    KeepsIndexLock(s, t, e);
    KeepsRunning(s, t, e);
    KeepsCount(s, t, e);
    KeepsAgreement(s, t, e);
    assert Agrees(s.At(t));
    DoneLocal(s.At(t), t, e);
  }

  // --- every run -----------------------------------------------------------------

  datatype Run = Began | Then(before: Run, task: nat, section: Section)

  ghost predicate Legal(r: Run)
    decreases r, 0
  {
    r.Then? ==> Legal(r.before) && Permitted(End(r.before).At(r.task), r.section)
  }

  ghost function End(r: Run): State
    requires Legal(r)
    decreases r, 1
  {
    match r
    case Began => State(Initial(), map[])
    case Then(before, t, e) => Apply(End(before), t, e)
  }

  ghost predicate Prefix(a: Run, r: Run) {
    a == r || (r.Then? && Prefix(a, r.before))
  }

  lemma {:induction false} Reachable(r: Run)
    requires Legal(r)
    ensures Inv(End(r))
  {
    if r.Then? {
      Reachable(r.before);
      StepKeepsInv(End(r.before), r.task, r.section);
    }
  }

  /** No run executes and none can begin executing. */
  ghost predicate NoRun(s: State) {
    forall t: nat :: !s.PcOf(t).Some? || (!s.PcOf(t).value.RunExecuting? && !s.PcOf(t).value.StartSaving?)
  }

  /** At most one run executes, and the running flag says so. */
  lemma AtMostOneRun(r: Run, t: nat, u: nat)
    requires Legal(r) && End(r).PcOf(t) == Some(RunExecuting) && End(r).PcOf(u) == Some(RunExecuting)
    ensures t == u && End(r).shared.running
  {
    Reachable(r);
    assert IsActive(End(r).PcOf(t)) && IsActive(End(r).PcOf(u));
  }

  lemma StaysClosed(l: Local, t: nat, e: Section)
    requires Permitted(l, e) && l.shared.closed
    ensures After(l, t, e).shared.closed
  {
  }

  /** From the moment Close has set its flag, no run executes or begins, ever. */
  lemma {:induction false} NoRunAfterClose(r: Run, earlier: Run)
    requires Legal(r) && Prefix(earlier, r) && Legal(earlier) && End(earlier).shared.closed
    ensures End(r).shared.closed && NoRun(End(r))
  {
    if r == earlier {
      Reachable(r);
      ClosedMeansNoRun(End(r));
    } else {
      NoRunAfterClose(r.before, earlier);
      ClosedStepKeepsNoRun(r.before, r.task, r.section);
    }
  }

  lemma ClosedStepKeepsNoRun(before: Run, t: nat, e: Section)
    requires Legal(before) && End(before).shared.closed && Permitted(End(before).At(t), e)
    ensures Apply(End(before), t, e).shared.closed && NoRun(Apply(End(before), t, e))
  {
    var s := End(before);
    Reachable(before);
    StaysClosed(s.At(t), t, e);
    StepKeepsInv(s, t, e);
    ClosedMeansNoRun(Apply(s, t, e));
  }

  lemma ClosedMeansNoRun(s: State)
    requires Inv(s) && s.shared.closed
    ensures NoRun(s)
  {
    forall t: nat ensures !s.PcOf(t).Some? || (!s.PcOf(t).value.RunExecuting? && !s.PcOf(t).value.StartSaving?) {
      assert Agrees(s.At(t));
    }
  }

  /** A task that holds the close lock without being a run excludes every run. */
  lemma CloseLockExcludesRuns(s: State, t: nat)
    requires Inv(s) && HoldsClose(s.PcOf(t)) && !IsActive(s.PcOf(t))
    ensures NoRun(s)
  {
    assert s.shared.closeLock == Some(t);
    forall u: nat ensures !s.PcOf(u).Some? || (!s.PcOf(u).value.RunExecuting? && !s.PcOf(u).value.StartSaving?) {
      assert s.shared.closeLock == Some(u) <==> HoldsClose(s.PcOf(u));
    }
  }

  /** Shutdown closes the store only when no search and no run is executing, and no
      search can begin. */
  lemma StoreClosesAlone(r: Run, t: nat)
    requires Legal(r) && Permitted(End(r).At(t), StoreClose)
    ensures Searches(End(r)) == {} && NoRun(End(r))
    ensures forall u: nat :: !Permitted(End(r).At(u), SearchBegin)
  {
    Reachable(r);
    assert Agrees(End(r).At(t));
    CloseLockExcludesRuns(End(r), t);
  }

  /** Shutdown closes the embedder only when no search and no run is executing, and
      neither will ever start again. */
  lemma EmbedderClosesAlone(r: Run, t: nat)
    requires Legal(r) && Permitted(End(r).At(t), EmbedderClose)
    requires End(r).PcOf(t).value.indexIdle && End(r).PcOf(t).value.searchesIdle
    ensures Searches(End(r)) == {} && NoRun(End(r)) && End(r).shared.closed
    ensures forall u: nat :: !Permitted(End(r).At(u), SearchBegin)
  {
    Reachable(r);
    assert Agrees(End(r).At(t));
    NoRunAfterClose(r, r);
  }

  /** A shutdown that has reported success leaves nothing in flight. */
  lemma ClosedStateIsQuiet(r: Run)
    requires Legal(r) && End(r).shared.shutdownState == 2
    ensures Searches(End(r)) == {} && NoRun(End(r)) && End(r).shared.closed && End(r).shared.shuttingDown
  {
    Reachable(r);
    NoRunAfterClose(r, r);
  }

  // --- a finished shutdown is final ----------------------------------------------------

  predicate InShutdown(pc: Option<Pc>) {
    pc.Some? && (pc.value.Entered? || pc.value.Closing? || pc.value.PastStop() || pc.value.Leaving?)
  }

  lemma DoneIsKept(l: Local, t: nat, e: Section)
    requires Permitted(l, e) && l.shared.shutdownState == 2
    ensures After(l, t, e).shared.shutdownState == 2 && (InShutdown(After(l, t, e).pc) ==> InShutdown(l.pc))
  {
  }

  /** Once a shutdown has been recorded, only those that had begun by then go on; no other
      task enters one, closes the store or closes the embedder, ever. */
  lemma {:induction false} DoneIsFinal(r: Run, earlier: Run, t: nat)
    requires Legal(r) && Prefix(earlier, r) && Legal(earlier)
    requires End(earlier).shared.shutdownState == 2 && !InShutdown(End(earlier).PcOf(t))
    ensures End(r).shared.shutdownState == 2 && !InShutdown(End(r).PcOf(t))
    ensures !Permitted(End(r).At(t), ShutdownEnter) && !Permitted(End(r).At(t), StoreClose) && !Permitted(End(r).At(t), EmbedderClose)
  {
    if r != earlier {
      DoneIsFinal(r.before, earlier, t);
      DoneStep(End(r.before), r.task, r.section, t);
    }
    NothingToFinish(End(r).At(t));
  }

  lemma DoneStep(s: State, u: nat, e: Section, t: nat)
    requires Permitted(s.At(u), e) && s.shared.shutdownState == 2 && !InShutdown(s.PcOf(t))
    ensures Apply(s, u, e).shared.shutdownState == 2 && !InShutdown(Apply(s, u, e).PcOf(t))
  {
    DoneIsKept(s.At(u), u, e);
    OthersStay(s, u, After(s.At(u), u, e));
  }

  lemma NothingToFinish(l: Local)
    requires l.shared.shutdownState == 2 && !InShutdown(l.pc)
    ensures !Permitted(l, ShutdownEnter) && !Permitted(l, StoreClose) && !Permitted(l, EmbedderClose)
  {
  }

  /** The shutdown is recorded by a Finish that has seen indexing idle and searches idle and
      holds the close lock, and by nothing else. */
  lemma DoneIffFinished(l: Local, t: nat, e: Section)
    requires Permitted(l, e) && l.shared.shutdownState != 2
    ensures After(l, t, e).shared.shutdownState == 2 <==>
            e.Finish? && l.pc.value.indexIdle && l.pc.value.searchesIdle && l.pc.value.holds
  {
  }

  /** So after such a Finish no new shutdown begins. */
  lemma FinishIsFinal(r: Run, before: Run, u: nat, t: nat)
    requires Legal(before) && End(before).PcOf(u) == Some(Finishing(true, true, true))
    requires Legal(r) && Prefix(Then(before, u, Finish), r) && t != u && !InShutdown(End(before).PcOf(t))
    ensures !InShutdown(End(r).PcOf(t)) && !Permitted(End(r).At(t), ShutdownEnter)
    ensures !Permitted(End(r).At(t), StoreClose) && !Permitted(End(r).At(t), EmbedderClose)
  {
    var s := End(before);
    OthersStay(s, u, After(s.At(u), u, Finish));
    DoneIsFinal(r, Then(before, u, Finish), t);
  }

  // --- undisturbed, everything gets done ---------------------------------------------------

  /** What these sections make of one task and the shared state, if all are permitted. */
  function Alone(l: Local, t: nat, sections: seq<Section>): Option<Local>
    decreases |sections|
  {
    if sections == [] then Some(l)
    else if !Permitted(l, sections[0]) then None
    else Alone(After(l, t, sections[0]), t, sections[1..])
  }

  lemma Ahead(l: Local, t: nat, e: Section, rest: seq<Section>, next: Local)
    requires Permitted(l, e) && After(l, t, e) == next
    ensures Alone(l, t, [e] + rest) == Alone(next, t, rest)
  {
    assert ([e] + rest)[1..] == rest;
  }

  lemma {:induction false} Together(l: Local, t: nat, a: seq<Section>, b: seq<Section>)
    requires Alone(l, t, a).Some?
    ensures Alone(l, t, a + b) == Alone(Alone(l, t, a).value, t, b)
    decreases |a|
  {
    if a == [] {
      assert a + b == b;
    } else {
      Together(After(l, t, a[0]), t, a[1..], b);
      assert (a + b)[1..] == a[1..] + b;
    }
  }

  function StopSections(): seq<Section> {
    [ShutdownEnter] + ([ShutdownStop] + ([IndexWait(false)] + ([CloseTakeLock] + ([CloseSet] + []))))
  }

  function CloseSections(): seq<Section> { LockSections() + LeaveSections() }

  function LockSections(): seq<Section> { [SearchWait(false)] + ([TryCloseLock(true)] + ([StoreClose] + [])) }

  function LeaveSections(): seq<Section> { [EmbedderClose] + ([Finish] + ([Leave] + [])) }

  function BeginSections(): seq<Section> {
    [StartCheck] + ([StartLock(true)] + ([StartTakeCloseLock] + ([StartDecide] + ([StartSave(true)] + []))))
  }

  function EndSections(): seq<Section> {
    [RunReturn] + ([RunReleaseIndexLock] + ([RunReleaseCloseLock] + ([RunFinish] + [])))
  }

  /** A shutdown that finds indexing idle stops searches and marks the indexer closed. */
  lemma LoneShutdownStops(g: Shared, t: nat)
    requires g.shutdownState < 2 && !g.running && g.closeLock.None?
    ensures Alone(Local(g, None), t, StopSections()) ==
            Some(Local(g.(shuttingDown := true, closed := true, shutdownState := 1), Some(WaitingSearches(true))))
  {
    var g1 := g.(shutdownState := 1);
    var g2 := g1.(shuttingDown := true);
    Ahead(Local(g2.(closeLock := Some(t)), Some(ClosingHolding)), t, CloseSet, [],
          Local(g2.(closed := true), Some(WaitingSearches(true))));
    Ahead(Local(g2, Some(Closing)), t, CloseTakeLock, [CloseSet] + [], Local(g2.(closeLock := Some(t)), Some(ClosingHolding)));
    Ahead(Local(g2, Some(WaitingIndex)), t, IndexWait(false), [CloseTakeLock] + ([CloseSet] + []), Local(g2, Some(Closing)));
    Ahead(Local(g1, Some(Entered)), t, ShutdownStop, [IndexWait(false)] + ([CloseTakeLock] + ([CloseSet] + [])),
          Local(g2, Some(WaitingIndex)));
    Ahead(Local(g, None), t, ShutdownEnter, [ShutdownStop] + ([IndexWait(false)] + ([CloseTakeLock] + ([CloseSet] + []))),
          Local(g1, Some(Entered)));
  }

  /** Once searches are done, too, and the lock is free, it closes the store and the embedder,
      records that, and gives the lock back. */
  lemma LoneShutdownCloses(g: Shared, t: nat)
    requires g.inFlight == 0 && g.closeLock.None?
    ensures Alone(Local(g, Some(WaitingSearches(true))), t, CloseSections()) == Some(Local(g.(shutdownState := 2), None))
  {
    LoneShutdownLocks(g, t);
    Together(Local(g, Some(WaitingSearches(true))), t, LockSections(), LeaveSections());
    LoneShutdownLeaves(g.(closeLock := Some(t)), t);
  }

  lemma LoneShutdownLocks(g: Shared, t: nat)
    requires g.inFlight == 0 && g.closeLock.None?
    ensures Alone(Local(g, Some(WaitingSearches(true))), t, LockSections()) ==
            Some(Local(g.(closeLock := Some(t)), Some(ClosingEmbedder(true, true, true))))
  {
    var held := g.(closeLock := Some(t));
    Ahead(Local(held, Some(ClosingStore(true))), t, StoreClose, [], Local(held, Some(ClosingEmbedder(true, true, true))));
    Ahead(Local(g, Some(Trying(true, true))), t, TryCloseLock(true), [StoreClose] + [], Local(held, Some(ClosingStore(true))));
    Ahead(Local(g, Some(WaitingSearches(true))), t, SearchWait(false), [TryCloseLock(true)] + ([StoreClose] + []),
          Local(g, Some(Trying(true, true))));
  }

  lemma LoneShutdownLeaves(held: Shared, t: nat)
    ensures Alone(Local(held, Some(ClosingEmbedder(true, true, true))), t, LeaveSections()) ==
            Some(Local(held.(shutdownState := 2, closeLock := None), None))
  {
    var done := held.(shutdownState := 2);
    Ahead(Local(done, Some(Leaving(true))), t, Leave, [], Local(done.(closeLock := None), None));
    Ahead(Local(held, Some(Finishing(true, true, true))), t, Finish, [Leave] + [], Local(done, Some(Leaving(true))));
    Ahead(Local(held, Some(ClosingEmbedder(true, true, true))), t, EmbedderClose, [Finish] + ([Leave] + []),
          Local(held, Some(Finishing(true, true, true))));
  }

  /** Undisturbed, a shutdown of an idle service goes through and is recorded. */
  lemma LoneShutdownFinishes(g: Shared, t: nat)
    requires g.shutdownState < 2 && !g.running && g.inFlight == 0 && g.closeLock.None?
    ensures Alone(Local(g, None), t, StopSections() + CloseSections()) ==
            Some(Local(g.(shuttingDown := true, closed := true, shutdownState := 2), None))
  {
    LoneShutdownStops(g, t);
    Together(Local(g, None), t, StopSections(), CloseSections());
    LoneShutdownCloses(g.(shuttingDown := true, closed := true, shutdownState := 1), t);
  }

  /** Undisturbed, a run begins executing with both locks and the flag... */
  lemma LoneRunBegins(g: Shared, t: nat)
    requires !g.closed && !g.running && g.indexLock.None? && g.closeLock.None?
    ensures Alone(Local(g, None), t, BeginSections()) ==
            Some(Local(g.(running := true, indexLock := Some(t), closeLock := Some(t)), Some(RunExecuting)))
  {
    var g1 := g.(indexLock := Some(t));
    var g2 := g1.(closeLock := Some(t));
    var g3 := g2.(running := true);
    Ahead(Local(g3, Some(StartSaving)), t, StartSave(true), [], Local(g3, Some(RunExecuting)));
    Ahead(Local(g2, Some(StartHolding)), t, StartDecide, [StartSave(true)] + [], Local(g3, Some(StartSaving)));
    Ahead(Local(g1, Some(StartLocked)), t, StartTakeCloseLock, [StartDecide] + ([StartSave(true)] + []), Local(g2, Some(StartHolding)));
    Ahead(Local(g, Some(StartChecked)), t, StartLock(true), [StartTakeCloseLock] + ([StartDecide] + ([StartSave(true)] + [])),
          Local(g1, Some(StartLocked)));
    Ahead(Local(g, None), t, StartCheck, [StartLock(true)] + ([StartTakeCloseLock] + ([StartDecide] + ([StartSave(true)] + []))),
          Local(g, Some(StartChecked)));
  }

  /** ... and ends with everything as it was. */
  lemma LoneRunEnds(g: Shared, t: nat)
    requires g.indexLock.None? && g.closeLock.None? && !g.running
    ensures Alone(Local(g.(running := true, indexLock := Some(t), closeLock := Some(t)), Some(RunExecuting)), t, EndSections()) ==
            Some(Local(g, None))
  {
    var g3 := g.(running := true, indexLock := Some(t), closeLock := Some(t));
    var g4 := g3.(indexLock := None);
    var g5 := g4.(closeLock := None);
    Ahead(Local(g5, Some(RunUnlocked)), t, RunFinish, [], Local(g, None));
    Ahead(Local(g4, Some(RunUnlocking)), t, RunReleaseCloseLock, [RunFinish] + [], Local(g5, Some(RunUnlocked)));
    Ahead(Local(g3, Some(RunReturned)), t, RunReleaseIndexLock, [RunReleaseCloseLock] + ([RunFinish] + []), Local(g4, Some(RunUnlocking)));
    Ahead(Local(g3, Some(RunExecuting)), t, RunReturn, [RunReleaseIndexLock] + ([RunReleaseCloseLock] + ([RunFinish] + [])),
          Local(g3, Some(RunReturned)));
  }

  /** A lone recovery of the collection lock takes it and gives it back. */
  lemma LoneRecoveryEnds(g: Shared, t: nat)
    requires g.closeLock.None?
    ensures Alone(Local(g, None), t, [RecoverTry] + []) == Some(Local(g.(closeLock := Some(t)), Some(Recovering)))
    ensures Alone(Local(g.(closeLock := Some(t)), Some(Recovering)), t, [RecoverDone] + []) == Some(Local(g, None))
  {
    Ahead(Local(g, None), t, RecoverTry, [], Local(g.(closeLock := Some(t)), Some(Recovering)));
    Ahead(Local(g.(closeLock := Some(t)), Some(Recovering)), t, RecoverDone, [], Local(g, None));
  }

  // --- the object that executes the sections -----------------------------------------

  /** The fields of the service and its indexing coordinator. Each method is one
      critical section, for the task `t` that executes it. */
  class Service {
    var searchesShuttingDown: bool
    var searches: nat
    var running: bool
    var closed: bool
    var closeLock: Option<nat>
    var indexLock: Option<nat>
    var shutdownState: nat

    ghost function View(): Shared
      reads this
    {
      Shared(searchesShuttingDown, searches, running, closed, closeLock, indexLock, shutdownState)
    }

    /** What section `e` of task `t` at `pc` makes of the fields. */
    twostate predicate Did(t: nat, pc: Option<Pc>, e: Section)
      reads this
    {
      Permitted(Local(old(View()), pc), e) && View() == After(Local(old(View()), pc), t, e).shared
    }

    constructor ()
      ensures View() == Initial()
    {
      searchesShuttingDown, searches, running, closed := false, 0, false, false;
      closeLock, indexLock, shutdownState := None, None, 0;
    }

    method BeginSearch(t: nat) returns (ok: bool)
      modifies this
      ensures ok <==> Permitted(Local(old(View()), None), SearchBegin)
      ensures if ok then Did(t, None, SearchBegin) else View() == old(View())
      ensures ok <==> !old(searchesShuttingDown)
      ensures searches == if ok then old(searches) + 1 else old(searches)
    {
      if searchesShuttingDown {
        return false;
      }
      searches := searches + 1;
      return true;
    }

    method SearchDone(t: nat)
      requires Permitted(Local(View(), Some(Searching)), SearchEnd)
      modifies this
      ensures Did(t, Some(Searching), SearchEnd) && searches == old(searches) - 1
    {
      searches := searches - 1;
    }

    method CheckStart() returns (ok: bool)
      ensures ok <==> Permitted(Local(View(), None), StartCheck)
      ensures ok <==> !closed && !running
    {
      if closed {
        return false;
      }
      return !running;
    }

    /** `elsewhere`: another process holds the index lock. */
    method TryIndexLock(t: nat, elsewhere: bool) returns (ok: bool)
      modifies this
      ensures Did(t, Some(StartChecked), StartLock(ok))
      ensures ok <==> old(indexLock).None? && !elsewhere
      ensures indexLock == if ok then Some(t) else old(indexLock)
    {
      ok := indexLock.None? && !elsewhere;
      if ok {
        indexLock := Some(t);
      }
    }

    /** Blocking acquisition: entered once the lock is free. */
    method TakeCloseLock(t: nat)
      requires closeLock.None?
      modifies this
      ensures Did(t, Some(StartLocked), StartTakeCloseLock)
      ensures Did(t, Some(Closing), CloseTakeLock) && closeLock == Some(t)
    {
      closeLock := Some(t);
    }

    method DecideStart(t: nat) returns (refused: bool)
      modifies this
      ensures Did(t, Some(StartHolding), StartDecide)
      ensures refused <==> old(closed) || old(running)
      ensures if refused then running == old(running) && indexLock.None? else running && indexLock == old(indexLock)
    {
      if closed || running {
        indexLock := None;
        return true;
      }
      running := true;
      return false;
    }

    /** The first progress write failed. */
    method AbortStart(t: nat)
      modifies this
      ensures Did(t, Some(StartSaving), StartSave(false)) && !running
    {
      running := false;
    }

    method UnlockIndex(t: nat)
      modifies this
      ensures Did(t, Some(RunReturned), RunReleaseIndexLock)
      ensures Did(t, Some(StartUnlocked), StartRelease) && indexLock.None?
    {
      indexLock := None;
    }

    method UnlockClose(t: nat)
      modifies this
      ensures Did(t, Some(RunUnlocking), RunReleaseCloseLock)
      ensures Did(t, Some(StartRefused), StartLeave) && Did(t, Some(StartAborting), StartAbort)
      ensures Did(t, Some(Leaving(true)), Leave) && Did(t, Some(Recovering), RecoverDone) && closeLock.None?
    {
      closeLock := None;
    }

    method FinishRun(t: nat)
      modifies this
      ensures Did(t, Some(RunUnlocked), RunFinish) && !running
    {
      running := false;
    }

    method EnterShutdown(t: nat) returns (already: bool)
      modifies this
      ensures already <==> !Permitted(Local(old(View()), None), ShutdownEnter)
      ensures if already then View() == old(View()) else Did(t, None, ShutdownEnter)
      ensures already <==> old(shutdownState) == 2
      ensures shutdownState == if old(shutdownState) == 0 then 1 else old(shutdownState)
    {
      if shutdownState == 2 {
        return true;
      }
      if shutdownState == 0 {
        shutdownState := 1;
      }
      return false;
    }

    method StopAcceptingSearches(t: nat)
      modifies this
      ensures Did(t, Some(Entered), ShutdownStop) && searchesShuttingDown
    {
      searchesShuttingDown := true;
    }

    method MarkClosed(t: nat)
      modifies this
      ensures Did(t, Some(ClosingHolding), CloseSet) && closed && closeLock.None?
    {
      if running {
        closed := true;
        closeLock := None;
        return;
      }
      closed := true;
      closeLock := None;
    }

    method TryLockForClose(t: nat, indexIdle: bool, searchesIdle: bool) returns (closeZvec: bool)
      modifies this
      ensures Did(t, Some(Trying(indexIdle, searchesIdle)), TryCloseLock(closeZvec))
      ensures closeZvec <==> searchesIdle && old(closeLock).None?
      ensures closeLock == if closeZvec then Some(t) else old(closeLock)
    {
      closeZvec := searchesIdle && closeLock.None?;
      if closeZvec {
        closeLock := Some(t);
      }
    }

    method FinishShutdown(t: nat, indexIdle: bool, searchesIdle: bool, closeZvec: bool)
      modifies this
      ensures Did(t, Some(Finishing(indexIdle, searchesIdle, closeZvec)), Finish)
      ensures shutdownState == if indexIdle && searchesIdle && closeZvec then 2 else old(shutdownState)
    {
      if indexIdle && searchesIdle && closeZvec {
        shutdownState := 2;
      }
    }
  }
}
