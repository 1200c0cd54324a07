/**
 What the registry does not guarantee, and for which configurations: an evicted workspace may
 be opened again before its handle is closed, and the native runtime may go down before Close
 has closed the handles it took out.
 */
module RegistryGaps {
  import opened Options
  import opened RegistryModel
  import opened RegistryProtocol
  import opened RegistryTheorems
  import opened RegistryHandles

  // --- whose handles may be open while their id is opened again -----------------------------

  predicate Closer(task: Task) { task.Discarding? || task.CloseClosing? }
  predicate OnlyClosing(task: Task) { Closer(task) || task.Draining? || task.CloseWaiting? }

  /** What is taken out while closing is of no id that is being opened. */
  ghost predicate ClosersApart(s: State) {
    && (forall t | t in s.tasks && OnlyClosing(s.tasks[t]) :: s.core.closing)
    && (forall t, u | t in s.tasks && u in s.tasks && s.tasks[t].Cold() && Closer(s.tasks[u]) :: Spares(s.tasks[u], s.tasks[t].id))
  }

  predicate Spares(task: Task, id: Id) { forall h | h in task.Handles() :: h.spec.id != id }

  lemma ClosersStayApart(s: State, s': State, t: nat)
    requires ClosersApart(s) && s'.core.closing == s.core.closing
    requires forall u | u in s'.tasks && u != t :: u in s.tasks && s'.tasks[u] == s.tasks[u]
    requires t in s'.tasks && OnlyClosing(s'.tasks[t]) ==> s.core.closing
    requires t in s'.tasks && Closer(s'.tasks[t]) ==>
      forall u | u in s.tasks && u != t && s.tasks[u].Cold() :: Spares(s'.tasks[t], s.tasks[u].id)
    requires t in s'.tasks && s'.tasks[t].Cold() ==>
      !s.core.closing || (t in s.tasks && s.tasks[t].Cold() && s'.tasks[t].id == s.tasks[t].id)
    ensures ClosersApart(s')
  {
    forall v, u | v in s'.tasks && u in s'.tasks && s'.tasks[v].Cold() && Closer(s'.tasks[u])
      ensures Spares(s'.tasks[u], s'.tasks[v].id) {
      if u != t && v == t && t in s.tasks && s.tasks[t].Cold() {
        assert Spares(s.tasks[u], s.tasks[t].id);
      }
    }
  }

  lemma ReleaseStaysApart(s: State, token: nat, t: nat, now: int)
    requires Reservations(s) && ClosersApart(s) && token in s.borrows && token in s.lent && t !in s.tasks
    ensures ClosersApart(AfterRelease(s, token, t, now))
  {
    var s' := AfterRelease(s, token, t, now);
    if t in s'.tasks {
      DiscardedIsSpared(s, s.borrows[token], s'.tasks[t]);
    }
    ClosersStayApart(s, s', t);
  }

  lemma DiscardedIsSpared(s: State, id: Id, task: Task)
    requires Reservations(s) && id in s.core.open && task.Discarding? && task.h.spec == s.core.open[id].spec
    ensures forall u | u in s.tasks && s.tasks[u].Cold() :: Spares(task, s.tasks[u].id)
  {
    forall u | u in s.tasks && s.tasks[u].Cold() ensures Spares(task, s.tasks[u].id) {
      ColdIsReserved(s, u);
    }
  }

  lemma FinishStaysApart(s: State, t: nat, ok: bool, token: nat, spec: Spec, now: int)
    requires Reservations(s) && ClosersApart(s) && t in s.tasks && s.tasks[t].Initing? && spec.id == s.tasks[t].id
    ensures ClosersApart(AfterFinish(s, t, ok, token, spec, now))
  {
    var s' := AfterFinish(s, t, ok, token, spec, now);
    if t in s'.tasks {
      forall u | u in s.tasks && u != t && s.tasks[u].Cold() ensures Spares(s'.tasks[t], s.tasks[u].id) {
        if s.tasks[u].id == spec.id {
          assert RoleAt(s.tasks, u).Claims(spec.id) && RoleAt(s.tasks, t).Claims(spec.id);
          OneClaimant(s, t, u, spec.id);
        }
      }
    }
    ClosersStayApart(s, s', t);
  }

  lemma DetachStaysApart(s: State, t: nat, queue: seq<Handle>)
    requires Reservations(s) && ClosersApart(s) && t in s.tasks && s.tasks[t].CloseWaiting?
    requires Lists(s.core.open, IdleIds(s.core.open), queue)
    ensures ClosersApart(AfterDetach(s, t, queue))
  {
    var s' := AfterDetach(s, t, queue);
    assert s'.tasks[t].Handles() == queue;
    forall u | u in s.tasks && u != t && s.tasks[u].Cold() ensures Spares(s'.tasks[t], s.tasks[u].id) {
      ColdIsReserved(s, u);
      forall h | h in queue ensures h.spec.id != s.tasks[u].id {
      }
    }
    ClosersStayApart(s, s', t);
  }

  lemma CloseStepStaysApart(s: State, t: nat)
    requires ClosersApart(s) && Enabled(s, CloseStep(t))
    ensures ClosersApart(AfterClose(s, t))
  {
    var s' := AfterClose(s, t);
    forall u | u in s.tasks && u != t && s.tasks[u].Cold() && t in s'.tasks && Closer(s'.tasks[t])
      ensures Spares(s'.tasks[t], s.tasks[u].id) {
      assert Spares(s.tasks[t], s.tasks[u].id);
      forall h | h in s'.tasks[t].Handles() ensures h in s.tasks[t].Handles() {
      }
    }
    ClosersStayApart(s, s', t);
  }

  lemma DiscardStaysApart(s: State, t: nat)
    requires ClosersApart(s) && Enabled(s, DiscardStep(t))
    ensures ClosersApart(AfterDiscard(s, t))
  {
    ClosersStayApart(s, AfterDiscard(s, t), t);
  }

  lemma ReloadStaysApart(s: State, t: nat)
    requires ClosersApart(s) && Enabled(s, ReloadStep(t))
    ensures ClosersApart(AfterReload(s, t))
  {
    ClosersStayApart(s, AfterReload(s, t), t);
  }

  lemma CloseStartStaysApart(s: State, t: nat)
    requires ClosersApart(s) && Enabled(s, CloseStart(t))
    ensures ClosersApart(AfterCloseStart(s, t))
  {
    forall u | u in s.tasks ensures !OnlyClosing(s.tasks[u]) {
    }
  }

  lemma StartStaysApart(s: State, id: Id, t: nat, victim: Option<Id>)
    requires ClosersApart(s) && Enabled(s, StartCold(id, t, victim))
    ensures ClosersApart(AfterStart(s, id, t, victim))
  {
    ClosersStayApart(s, AfterStart(s, id, t, victim), t);
  }

  lemma SwapStaysApart(s: State, t: nat, cfg: Config, queue: seq<Handle>)
    requires ClosersApart(s) && t !in s.tasks
    ensures ClosersApart(AfterSwap(s, t, cfg, queue))
  {
    ClosersStayApart(s, AfterSwap(s, t, cfg, queue), t);
  }

  lemma BorrowStaysApart(s: State, id: Id, token: nat, now: int)
    requires ClosersApart(s) && id in s.core.open
    ensures ClosersApart(AfterBorrow(s, id, token, now))
  {
    ClosersStayApart(s, AfterBorrow(s, id, token, now), 0);
  }

  lemma DrainStaysApart(s: State, t: nat)
    requires ClosersApart(s)
    ensures ClosersApart(AfterDrain(s, t))
  {
    ClosersStayApart(s, AfterDrain(s, t), t);
  }

  lemma StepStaysApart(s: State, e: Step)
    requires Inv(s) && ClosersApart(s) && Enabled(s, e)
    ensures ClosersApart(Apply(s, e))
  {
    match e
    case Borrow(id, token, now) => BorrowStaysApart(s, id, token, now);
    case StartCold(id, t, victim) => StartStaysApart(s, id, t, victim);
    case DiscardStep(t) => DiscardStaysApart(s, t);
    case FinishCold(t, ok, token, spec, now) => FinishStaysApart(s, t, ok, token, spec, now);
    case Release(token, t, now) => ReleaseStaysApart(s, token, t, now);
    case Drain(t) => DrainStaysApart(s, t);
    case Reload(t, cfg, indexing, queue) => SwapStaysApart(s, t, cfg, queue);
    case ReloadStep(t) => ReloadStaysApart(s, t);
    case CloseStart(t) => CloseStartStaysApart(s, t);
    case CloseDetach(t, queue) => DetachStaysApart(s, t, queue);
    case CloseStep(t) => CloseStepStaysApart(s, t);
  }

  lemma {:induction false} ClosersAreApart(r: Run)
    requires Legal(r)
    ensures ClosersApart(End(r))
  {
    if r.Then? {
      ClosersAreApart(r.before);
      Reachable(r.before);
      StepStaysApart(End(r.before), r.e);
    }
  }

  /** In every reachable state, reloads included: while an id is being opened, a handle of it
      that is not closed yet is the victim of an eviction. */
  lemma OnlyEvictedReopenEarly(r: Run, t: nat, u: nat, h: Handle)
    requires Legal(r) && t in End(r).tasks && End(r).tasks[t].Cold()
    requires u in End(r).tasks && h in End(r).tasks[u].Handles() && h.spec.id == End(r).tasks[t].id
    ensures End(r).tasks[u].Evicting? || End(r).tasks[u].EvictClosing?
  {
    var s := End(r);
    Reachable(r);
    ClosersAreApart(r);
    ColdIsReserved(s, t);
    assert Closer(s.tasks[u]) ==> Spares(s.tasks[u], s.tasks[t].id);
    if s.tasks[u].Reload() {
      ReloadIsReserved(s, u, h);
    }
  }

  // --- what is left when the runtime is down ---------------------------------------------------

  /** With the runtime down, a goroutine holds a handle that is not closed exactly when it is
      Close with handles it took out itself... */
  lemma UnclosedWhenDownIff(r: Run, t: nat)
    requires Legal(r) && End(r).core.down && t in End(r).tasks
    ensures End(r).tasks[t].Handles() != [] <==> End(r).tasks[t].CloseClosing? && End(r).tasks[t].queue != []
  {
    var s := End(r);
    Reachable(r);
    if s.tasks[t].Handles() != [] {
      var h := s.tasks[t].Handles()[0];
      assert h in s.tasks[t].Handles();
      if s.tasks[t].Cold() {
        ColdIsReserved(s, t);
      } else if s.tasks[t].Reload() {
        ReloadIsReserved(s, t, h);
      } else if s.tasks[t].Counted() {
        CountedMeansDiscards(s, t);
      }
    }
  }

  /** ... and every other handle ever made has been closed. */
  lemma RestIsClosedWhenDown(r: Run, hid: nat)
    requires Legal(r) && End(r).core.down && hid < End(r).nextHid
    ensures hid in End(r).shut <==>
            !exists t: nat :: t in End(r).tasks && End(r).tasks[t].CloseClosing? && Held(End(r).tasks, t, hid)
  {
    var s := End(r);
    Reachable(r);
    HandlesArePlaced(r);
    assert Somewhere(s, hid);
    if t: nat :| Held(s.tasks, t, hid) {
      assert t in s.tasks && s.tasks[t].Handles() != [];
      UnclosedWhenDownIff(r, t);
    }
  }

  // --- runs without reload -----------------------------------------------------------------------

  ghost predicate Plain(r: Run, cfg: Config) {
    match r
    case Start(c) => c == cfg
    case Then(before, e) => Plain(before, cfg) && !e.Reload?
  }

  /** Reached from an empty registry of this configuration without any reload. */
  ghost predicate Reaches(cfg: Config, s: State) {
    exists r :: Legal(r) && Plain(r, cfg) && End(r) == s
  }

  lemma OneStep(cfg: Config, s: State, e: Step)
    requires Reaches(cfg, s) && Enabled(s, e) && !e.Reload?
    ensures Reaches(cfg, Apply(s, e))
  {
    var r :| Legal(r) && Plain(r, cfg) && End(r) == s;
    assert Legal(Then(r, e)) && Plain(Then(r, e), cfg) && End(Then(r, e)) == Apply(s, e);
  }

  /** Only configured workspaces are opened, and only cold opens are in progress. */
  ghost predicate Configured(s: State, cfg: Config) {
    && s.core.cfg == cfg
    && s.core.open.Keys <= cfg.workspaces.Keys && s.core.opening.Keys <= cfg.workspaces.Keys
    && (forall t | t in s.tasks :: !s.tasks[t].Reload())
    && (forall id | id in s.core.opening :: s.core.opening[id].ColdOpen?)
  }

  predicate Evicts(task: Task) { task.Evicting? || task.EvictClosing? }

  /** An eviction makes room for another workspace than its victim, and there are more than fit. */
  ghost predicate EvictionsFit(s: State, cfg: Config) {
    forall t | t in s.tasks && Evicts(s.tasks[t]) :: s.tasks[t].h.spec.id != s.tasks[t].id && cfg.maxOpen < |cfg.workspaces|
  }

  /** A step that starts and finishes no cold open. */
  lemma ConfiguredKept(s: State, s': State, cfg: Config, t: nat)
    requires Configured(s, cfg) && s'.core.cfg == cfg
    requires s'.core.open.Keys <= s.core.open.Keys && s'.core.opening == s.core.opening
    requires forall u | u in s'.tasks && u != t :: u in s.tasks && s'.tasks[u] == s.tasks[u]
    requires t in s'.tasks ==> !s'.tasks[t].Reload()
    ensures Configured(s', cfg)
  {
  }

  lemma FinishKeepsConfigured(s: State, t: nat, ok: bool, token: nat, spec: Spec, now: int, cfg: Config)
    requires Configured(s, cfg) && t in s.tasks && s.tasks[t].Initing? && s.tasks[t].id in s.core.opening
    ensures Configured(AfterFinish(s, t, ok, token, spec, now), cfg)
  {
  }

  lemma StartKeepsConfigured(s: State, id: Id, t: nat, victim: Option<Id>, cfg: Config)
    requires Configured(s, cfg) && Enabled(s, StartCold(id, t, victim))
    ensures Configured(AfterStart(s, id, t, victim), cfg)
  {
  }

  lemma ReleaseKeepsConfigured(s: State, token: nat, t: nat, now: int, cfg: Config)
    requires Configured(s, cfg) && token in s.borrows && token in s.lent && t !in s.tasks
    ensures Configured(AfterRelease(s, token, t, now), cfg)
  {
    ConfiguredKept(s, AfterRelease(s, token, t, now), cfg, t);
  }

  /** A step that evicts nothing. */
  lemma EvictionsKept(s: State, s': State, cfg: Config, t: nat)
    requires EvictionsFit(s, cfg)
    requires forall u | u in s'.tasks && u != t :: u in s.tasks && s'.tasks[u] == s.tasks[u]
    requires t in s'.tasks && Evicts(s'.tasks[t]) ==>
      t in s.tasks && Evicts(s.tasks[t]) && s'.tasks[t].h == s.tasks[t].h && s'.tasks[t].id == s.tasks[t].id
    ensures EvictionsFit(s', cfg)
  {
  }

  lemma StartKeepsEvictions(s: State, id: Id, t: nat, victim: Option<Id>, cfg: Config)
    requires Reservations(s) && Configured(s, cfg) && EvictionsFit(s, cfg) && Enabled(s, StartCold(id, t, victim))
    ensures EvictionsFit(AfterStart(s, id, t, victim), cfg)
  {
    if victim.Some? {
      MoreThanFit(s, id, cfg);
    }
  }

  lemma MoreThanFit(s: State, id: Id, cfg: Config)
    requires Reservations(s) && Configured(s, cfg) && id in cfg.workspaces && id !in s.core.open && id !in s.core.opening
    requires |s.core.open| + |s.core.opening| >= cfg.maxOpen
    ensures cfg.maxOpen < |cfg.workspaces|
  {
    var open, opening := s.core.open.Keys, s.core.opening.Keys;
    assert |open + opening| == |open| + |opening|;
    assert |open + opening + {id}| == |open + opening| + 1;
    SubsetSize(open + opening + {id}, cfg.workspaces.Keys);
    assert |s.core.open.Keys| == |s.core.open| && |s.core.opening.Keys| == |s.core.opening|;
    assert |cfg.workspaces.Keys| == |cfg.workspaces|;
  }

  predicate Closes(task: Task) { task.CloseWaiting? || task.CloseClosing? }
  /** There is one Close, and it checks the drain only if it left nothing open. */
  ghost predicate OneClose(s: State) {
    && (forall t, u | t in s.tasks && u in s.tasks && Closes(s.tasks[t]) && Closes(s.tasks[u]) :: t == u)
    && (forall t | t in s.tasks && s.tasks[t].CloseClosing? && !s.tasks[t].skip :: s.core.open == map[])
  }

  /** A step of a task that does not become a Close. */
  lemma OneCloseKept(s: State, s': State, t: nat)
    requires OneClose(s) && (s.core.open == map[] ==> s'.core.open == map[])
    requires forall u | u in s'.tasks && u != t :: u in s.tasks && s'.tasks[u] == s.tasks[u]
    requires t in s'.tasks && Closes(s'.tasks[t]) ==> t in s.tasks && Closes(s.tasks[t])
    requires t in s'.tasks && s'.tasks[t].CloseClosing? && !s'.tasks[t].skip ==> s'.core.open == map[]
    ensures OneClose(s')
  {
    forall v, u | v in s'.tasks && u in s'.tasks && Closes(s'.tasks[v]) && Closes(s'.tasks[u]) ensures v == u {
      assert Closes(s.tasks[v]) && Closes(s.tasks[u]);
    }
  }

  lemma NoCloseMeansOne(s: State)
    requires forall t | t in s.tasks :: !Closes(s.tasks[t])
    ensures OneClose(s)
  {
  }

  lemma FinishKeepsOneClose(s: State, t: nat, ok: bool, token: nat, spec: Spec, now: int)
    requires ClosersApart(s) && OneClose(s) && t in s.tasks && s.tasks[t].Initing?
    ensures OneClose(AfterFinish(s, t, ok, token, spec, now))
  {
    var s' := AfterFinish(s, t, ok, token, spec, now);
    if s.core.closing {
      OneCloseKept(s, s', t);
    } else {
      NoCloserYet(s);
      NoCloseMeansOne(s');
    }
  }

  lemma ReleaseKeepsOneClose(s: State, token: nat, t: nat, now: int)
    requires RefsExact(s) && OneClose(s) && Enabled(s, Release(token, t, now))
    ensures OneClose(AfterRelease(s, token, t, now))
  {
    ReleaseFindsItsHandle(s, token);
    OneCloseKept(s, AfterRelease(s, token, t, now), t);
  }

  lemma CloseStartKeepsOneClose(s: State, t: nat)
    requires ClosersApart(s) && Enabled(s, CloseStart(t))
    ensures OneClose(AfterCloseStart(s, t))
  {
    NoCloserYet(s);
  }

  lemma NoCloserYet(s: State)
    requires ClosersApart(s) && !s.core.closing
    ensures forall t | t in s.tasks :: !OnlyClosing(s.tasks[t])
  {
  }

  /** What holds without reloads. */
  ghost predicate PlainInv(s: State, cfg: Config) { Configured(s, cfg) && EvictionsFit(s, cfg) && OneClose(s) }

  /** A step of task `t` that opens nothing, starts no Close and evicts nothing new. */
  lemma PlainKept(s: State, s': State, cfg: Config, t: nat)
    requires PlainInv(s, cfg) && s'.core.cfg == cfg
    requires s'.core.open.Keys <= s.core.open.Keys && s'.core.opening == s.core.opening
    requires forall u | u in s'.tasks && u != t :: u in s.tasks && s'.tasks[u] == s.tasks[u]
    requires t in s'.tasks ==> !s'.tasks[t].Reload()
    requires t in s'.tasks && Evicts(s'.tasks[t]) ==>
      t in s.tasks && Evicts(s.tasks[t]) && s'.tasks[t].h == s.tasks[t].h && s'.tasks[t].id == s.tasks[t].id
    requires t in s'.tasks && Closes(s'.tasks[t]) ==> t in s.tasks && Closes(s.tasks[t])
    requires t in s'.tasks && s'.tasks[t].CloseClosing? && !s'.tasks[t].skip ==> s'.core.open == map[]
    ensures PlainInv(s', cfg)
  {
    ConfiguredKept(s, s', cfg, t);
    EvictionsKept(s, s', cfg, t);
    OneCloseKept(s, s', t);
  }

  lemma BorrowKeepsPlain(s: State, id: Id, token: nat, now: int, cfg: Config)
    requires PlainInv(s, cfg) && id in s.core.open
    ensures PlainInv(AfterBorrow(s, id, token, now), cfg)
  {
    PlainKept(s, AfterBorrow(s, id, token, now), cfg, 0);
  }

  lemma StartKeepsPlain(s: State, id: Id, t: nat, victim: Option<Id>, cfg: Config)
    requires Reservations(s) && ClosersApart(s) && PlainInv(s, cfg) && Enabled(s, StartCold(id, t, victim))
    ensures PlainInv(AfterStart(s, id, t, victim), cfg)
  {
    StartKeepsConfigured(s, id, t, victim, cfg);
    StartKeepsEvictions(s, id, t, victim, cfg);
    NoCloserYet(s);
    NoCloseMeansOne(AfterStart(s, id, t, victim));
  }

  lemma DiscardKeepsPlain(s: State, t: nat, cfg: Config)
    requires PlainInv(s, cfg) && Enabled(s, DiscardStep(t))
    ensures PlainInv(AfterDiscard(s, t), cfg)
  {
    PlainKept(s, AfterDiscard(s, t), cfg, t);
  }

  lemma FinishKeepsPlain(s: State, t: nat, ok: bool, token: nat, spec: Spec, now: int, cfg: Config)
    requires Reservations(s) && ClosersApart(s) && PlainInv(s, cfg) && t in s.tasks && s.tasks[t].Initing?
    ensures PlainInv(AfterFinish(s, t, ok, token, spec, now), cfg)
  {
    ColdIsReserved(s, t);
    FinishKeepsConfigured(s, t, ok, token, spec, now, cfg);
    EvictionsKept(s, AfterFinish(s, t, ok, token, spec, now), cfg, t);
    FinishKeepsOneClose(s, t, ok, token, spec, now);
  }

  lemma ReleaseKeepsPlain(s: State, token: nat, t: nat, now: int, cfg: Config)
    requires RefsExact(s) && PlainInv(s, cfg) && Enabled(s, Release(token, t, now))
    ensures PlainInv(AfterRelease(s, token, t, now), cfg)
  {
    ReleaseKeepsConfigured(s, token, t, now, cfg);
    EvictionsKept(s, AfterRelease(s, token, t, now), cfg, t);
    ReleaseKeepsOneClose(s, token, t, now);
  }

  lemma DrainKeepsPlain(s: State, t: nat, cfg: Config)
    requires PlainInv(s, cfg) && Enabled(s, Drain(t))
    ensures PlainInv(AfterDrain(s, t), cfg)
  {
    PlainKept(s, AfterDrain(s, t), cfg, t);
  }

  lemma CloseStartKeepsPlain(s: State, t: nat, cfg: Config)
    requires ClosersApart(s) && PlainInv(s, cfg) && Enabled(s, CloseStart(t))
    ensures PlainInv(AfterCloseStart(s, t), cfg)
  {
    ConfiguredKept(s, AfterCloseStart(s, t), cfg, t);
    EvictionsKept(s, AfterCloseStart(s, t), cfg, t);
    CloseStartKeepsOneClose(s, t);
  }

  lemma DetachKeepsPlain(s: State, t: nat, queue: seq<Handle>, cfg: Config)
    requires PlainInv(s, cfg) && t in s.tasks && s.tasks[t].CloseWaiting?
    ensures PlainInv(AfterDetach(s, t, queue), cfg)
  {
    PlainKept(s, AfterDetach(s, t, queue), cfg, t);
  }

  lemma CloseStepKeepsPlain(s: State, t: nat, cfg: Config)
    requires PlainInv(s, cfg) && Enabled(s, CloseStep(t))
    ensures PlainInv(AfterClose(s, t), cfg)
  {
    PlainKept(s, AfterClose(s, t), cfg, t);
  }

  lemma StepKeepsPlain(s: State, e: Step, cfg: Config)
    requires Inv(s) && ClosersApart(s) && PlainInv(s, cfg) && Enabled(s, e) && !e.Reload?
    ensures PlainInv(Apply(s, e), cfg)
  {
    match e
    case Borrow(id, token, now) => BorrowKeepsPlain(s, id, token, now, cfg);
    case StartCold(id, t, victim) => StartKeepsPlain(s, id, t, victim, cfg);
    case DiscardStep(t) => DiscardKeepsPlain(s, t, cfg);
    case FinishCold(t, ok, token, spec, now) => FinishKeepsPlain(s, t, ok, token, spec, now, cfg);
    case Release(token, t, now) => ReleaseKeepsPlain(s, token, t, now, cfg);
    case Drain(t) => DrainKeepsPlain(s, t, cfg);
    case CloseStart(t) => CloseStartKeepsPlain(s, t, cfg);
    case CloseDetach(t, queue) => DetachKeepsPlain(s, t, queue, cfg);
    case CloseStep(t) => CloseStepKeepsPlain(s, t, cfg);
    case ReloadStep(_) =>
  }

  lemma {:induction false} PlainRun(r: Run, cfg: Config)
    requires Legal(r) && Plain(r, cfg)
    ensures LimitKept(r) && Inv(End(r)) && ClosersApart(End(r)) && PlainInv(End(r), cfg)
  {
    Reachable(r);
    ClosersAreApart(r);
    if r.Then? {
      PlainRun(r.before, cfg);
      StepKeepsPlain(End(r.before), r.e, cfg);
    }
  }

  /** Two different workspaces that are open or being opened. */
  lemma TwoAtOnce(s: State, cfg: Config, a: Id, b: Id)
    requires Reservations(s) && Configured(s, cfg) && Occupied(s.core) <= cfg.maxOpen && a != b
    requires (a in s.core.open || a in s.core.opening) && (b in s.core.open || b in s.core.opening)
    ensures TwoFit(cfg)
  {
    var open, cold := s.core.open.Keys, ColdIds(s.core.opening);
    assert cold == s.core.opening.Keys;
    DisjointSize(open, cold);
    TwoInSet(open + cold, a, b);
    TwoInSet(cfg.workspaces.Keys, a, b);
    assert |cfg.workspaces.Keys| == |cfg.workspaces|;
  }

  lemma DisjointSize(a: set<Id>, b: set<Id>)
    requires a !! b
    ensures |a + b| == |a| + |b|
  {
  }

  lemma TwoInSet(all: set<Id>, a: Id, b: Id)
    requires a != b && a in all && b in all
    ensures 2 <= |all|
  {
    SubsetSize({a, b}, all);
  }

  predicate TwoFit(cfg: Config) { 2 <= cfg.maxOpen && 2 <= |cfg.workspaces| }

  // --- reaching states ------------------------------------------------------------------------------

  function SpecOf(id: Id): Spec { Spec(id, id, id, id, id, true, id) }

  /** Nothing is going on in the registry and these workspaces are open. */
  function Quiet(cfg: Config, open: map<Id, Handle>, nextHid: nat): State {
    State(Core(cfg, open, map[], false, 0, false), map[], map[], map[], {}, nextHid, 0)
  }

  /** One workspace is being opened by task 0, or has just been lent to token 0. */
  function Opening(cfg: Config, open: map<Id, Handle>, n: nat, id: Id): State {
    State(Core(cfg, open, map[id := ColdOpen(0)], false, 0, false), map[0 := Initing(id)], map[], map[], {}, n, 0)
  }

  function Lent(cfg: Config, open: map<Id, Handle>, n: nat, id: Id): State {
    State(Core(cfg, open[id := Handle(n, SpecOf(id), 1, 0)], map[], false, 0, false),
          map[], map[0 := id], map[0 := n], {}, n + 1, 0)
  }

  lemma StartsOpening(cfg: Config, open: map<Id, Handle>, n: nat, id: Id)
    requires id in cfg.workspaces && id !in open && |open| < cfg.maxOpen
    requires Reaches(cfg, Quiet(cfg, open, n))
    ensures Reaches(cfg, Opening(cfg, open, n, id))
  {
    var s := Quiet(cfg, open, n);
    assert AfterStart(s, id, 0, None) == Opening(cfg, open, n, id);
    OneStep(cfg, s, StartCold(id, 0, None));
  }

  lemma FinishesOpening(cfg: Config, open: map<Id, Handle>, n: nat, id: Id)
    requires id !in open && Reaches(cfg, Opening(cfg, open, n, id))
    ensures Reaches(cfg, Lent(cfg, open, n, id))
  {
    var s := Opening(cfg, open, n, id);
    assert s.tasks - {0} == map[] && s.core.opening - {id} == map[];
    assert AfterFinish(s, 0, true, 0, SpecOf(id), 0) == Lent(cfg, open, n, id);
    OneStep(cfg, s, FinishCold(0, true, 0, SpecOf(id), 0));
  }

  lemma ReturnsLent(cfg: Config, open: map<Id, Handle>, n: nat, id: Id)
    requires id !in open && Reaches(cfg, Lent(cfg, open, n, id))
    ensures Reaches(cfg, Quiet(cfg, open[id := Handle(n, SpecOf(id), 0, 0)], n + 1))
  {
    var s := Lent(cfg, open, n, id);
    assert s.borrows - {0} == map[] && s.lent - {0} == map[];
    assert s.core.open[id := Handle(n, SpecOf(id), 0, 0)] == open[id := Handle(n, SpecOf(id), 0, 0)];
    assert AfterRelease(s, 0, 0, 0) == Quiet(cfg, open[id := Handle(n, SpecOf(id), 0, 0)], n + 1);
    OneStep(cfg, s, Release(0, 0, 0));
  }

  lemma OpenAndRelease(cfg: Config, open: map<Id, Handle>, n: nat, id: Id)
    requires Reaches(cfg, Quiet(cfg, open, n))
    requires id in cfg.workspaces && id !in open && |open| < cfg.maxOpen
    ensures Reaches(cfg, Quiet(cfg, open[id := Handle(n, SpecOf(id), 0, 0)], n + 1))
  {
    StartsOpening(cfg, open, n, id);
    FinishesOpening(cfg, open, n, id);
    ReturnsLent(cfg, open, n, id);
  }

  function IdleHandle(id: Id, hid: nat): Handle { Handle(hid, SpecOf(id), 0, 0) }

  /** These workspaces are open, never used since they were returned. */
  ghost predicate IdleOpen(cfg: Config, open: map<Id, Handle>, n: nat) {
    && Reaches(cfg, Quiet(cfg, open, n)) && open.Keys <= cfg.workspaces.Keys
    && forall id | id in open :: open[id] == IdleHandle(id, open[id].hid)
  }

  lemma {:induction false} FillUp(cfg: Config, k: nat) returns (open: map<Id, Handle>, n: nat)
    requires k <= cfg.maxOpen && k <= |cfg.workspaces|
    ensures IdleOpen(cfg, open, n) && |open| == k
  {
    if k == 0 {
      assert Legal(Start(cfg)) && Plain(Start(cfg), cfg) && End(Start(cfg)) == Quiet(cfg, map[], 0);
      open, n := map[], 0;
    } else {
      open, n := FillUp(cfg, k - 1);
      var id := Unopened(cfg, open);
      OpenAndRelease(cfg, open, n, id);
      var more := open[id := IdleHandle(id, n)];
      assert more.Keys == open.Keys + {id};
      assert |more| == |more.Keys| && |open| == |open.Keys|;
      open, n := more, n + 1;
    }
  }

  /** There is another workspace as long as not all are open. */
  lemma Unopened(cfg: Config, open: map<Id, Handle>) returns (id: Id)
    requires open.Keys <= cfg.workspaces.Keys && |open| < |cfg.workspaces|
    ensures id in cfg.workspaces && id !in open
  {
    assert |cfg.workspaces.Keys| == |cfg.workspaces| && |open.Keys| == |open|;
    if cfg.workspaces.Keys <= open.Keys {
      SubsetSize(cfg.workspaces.Keys, open.Keys);
    }
    id :| id in cfg.workspaces.Keys && id !in open.Keys;
  }

  // --- eviction reserves no id -----------------------------------------------------------------------

  /** One task is closing a handle of `a` while another is opening `a` anew. */
  ghost predicate ReopenedTooEarly(s: State, a: Id) {
    && (exists t :: t in s.tasks && s.tasks[t].EvictClosing? && s.tasks[t].h.spec.id == a)
    && (exists t :: t in s.tasks && s.tasks[t].Cold() && s.tasks[t].id == a)
  }

  /** The victim `ha` is closed to make room for `b`; `rest` stays open. */
  function Evicted(cfg: Config, ha: Handle, b: Id, rest: map<Id, Handle>, n: nat): State {
    State(Core(cfg, rest, map[b := ColdOpen(0)], false, 0, false), map[0 := Evicting(b, ha)], map[], map[], {}, n, 0)
  }

  function EvictionClosing(cfg: Config, ha: Handle, b: Id, rest: map<Id, Handle>, n: nat): State {
    Evicted(cfg, ha, b, rest, n).(core := Core(cfg, rest, map[b := ColdOpen(0)], false, 1, false),
                                  tasks := map[0 := EvictClosing(b, ha)])
  }

  lemma EvictsFirst(cfg: Config, open: map<Id, Handle>, n: nat, a: Id, b: Id)
    requires IdleOpen(cfg, open, n) && |open| == cfg.maxOpen && a in open && b in cfg.workspaces && b !in open
    ensures Reaches(cfg, EvictionClosing(cfg, open[a], b, open - {a}, n))
  {
    var s := Quiet(cfg, open, n);
    var s1 := Evicted(cfg, open[a], b, open - {a}, n);
    assert IsOldestIdle(open, Some(a));
    assert AfterStart(s, b, 0, Some(a)) == s1;
    OneStep(cfg, s, StartCold(b, 0, Some(a)));
    assert AfterDiscard(s1, 0) == EvictionClosing(cfg, open[a], b, open - {a}, n);
    OneStep(cfg, s1, DiscardStep(0));
  }

  lemma WithoutOne(open: map<Id, Handle>, a: Id)
    requires a in open
    ensures |open - {a}| == |open| - 1
  {
    assert (open - {a}).Keys == open.Keys - {a};
    assert |(open - {a}).Keys| == |open - {a}| && |open.Keys| == |open|;
  }

  lemma ReopensVictim(cfg: Config, open: map<Id, Handle>, n: nat, a: Id, b: Id, c: Id)
    requires IdleOpen(cfg, open, n) && |open| == cfg.maxOpen && a in open && c in open && a != c && b !in open
    requires Reaches(cfg, EvictionClosing(cfg, open[a], b, open - {a}, n))
    ensures exists s: State :: Reaches(cfg, s) && ReopenedTooEarly(s, a)
  {
    var rest := open - {a};
    var s := EvictionClosing(cfg, open[a], b, rest, n);
    WithoutOne(open, a);
    assert |s.core.opening| == 1;
    assert IsOldestIdle(rest, Some(c));
    OneStep(cfg, s, StartCold(a, 1, Some(c)));
    BothAtWork(cfg, open[a], a, b, rest, n, c);
  }

  lemma BothAtWork(cfg: Config, ha: Handle, a: Id, b: Id, rest: map<Id, Handle>, n: nat, c: Id)
    requires c in rest && ha.spec.id == a
    ensures ReopenedTooEarly(AfterStart(EvictionClosing(cfg, ha, b, rest, n), a, 1, Some(c)), a)
  {
    var tasks := AfterStart(EvictionClosing(cfg, ha, b, rest, n), a, 1, Some(c)).tasks;
    assert tasks[0] == EvictClosing(b, ha) && tasks[1] == Evicting(a, rest[c]);
  }

  /** Eviction reserves no id. A workspace can be opened again while its evicted handle is
      still being closed if and only if at least two fit and there are more than fit. */
  lemma EvictedReopensEarlyIff(cfg: Config)
    ensures (exists s: State, a: Id :: Reaches(cfg, s) && ReopenedTooEarly(s, a)) <==> 2 <= cfg.maxOpen < |cfg.workspaces|
  {
    if s: State, a: Id :| Reaches(cfg, s) && ReopenedTooEarly(s, a) {
      ReopeningNeedsRoom(cfg, s, a);
    }
    if 2 <= cfg.maxOpen < |cfg.workspaces| {
      var open, n := FillUp(cfg, cfg.maxOpen);
      var b := Unopened(cfg, open);
      assert |open.Keys| == |open|;
      var a :| a in open.Keys;
      assert |open.Keys - {a}| == |open| - 1;
      var c :| c in open.Keys - {a};
      EvictsFirst(cfg, open, n, a, b);
      ReopensVictim(cfg, open, n, a, b, c);
    }
  }

  lemma ReopeningNeedsRoom(cfg: Config, s: State, a: Id)
    requires Reaches(cfg, s) && ReopenedTooEarly(s, a)
    ensures 2 <= cfg.maxOpen < |cfg.workspaces|
  {
    var r :| Legal(r) && Plain(r, cfg) && End(r) == s;
    PlainRun(r, cfg);
    OpenNeverExceedsLimit(r);
    var t :| t in s.tasks && s.tasks[t].EvictClosing? && s.tasks[t].h.spec.id == a;
    var u :| u in s.tasks && s.tasks[u].Cold() && s.tasks[u].id == a;
    ColdIsReserved(s, t);
    ColdIsReserved(s, u);
    TwoAtOnce(s, cfg, s.tasks[t].id, a);
  }

  // --- Close may outlive the runtime ---------------------------------------------------------------------

  ghost predicate Unclosed(s: State, t: nat) { s.core.down && t in s.tasks && s.tasks[t].Handles() != [] }

  // Close has begun; `a` is idle and `b` goes through lent, discarded and drained.
  function ClosingLent(cfg: Config, a: Id, b: Id): State {
    State(Core(cfg, map[a := Handle(0, SpecOf(a), 0, 0), b := Handle(1, SpecOf(b), 1, 0)], map[], true, 0, false),
          map[0 := CloseWaiting], map[0 := b], map[0 := 1], {}, 2, 0)
  }

  function ClosingDiscard(cfg: Config, a: Id, b: Id): State {
    State(Core(cfg, map[a := Handle(0, SpecOf(a), 0, 0)], map[], true, 1, false),
          map[0 := CloseWaiting, 1 := Discarding(Handle(1, SpecOf(b), 0, 0))], map[], map[], {}, 2, 0)
  }

  function ClosingDrain(cfg: Config, a: Id): State {
    State(Core(cfg, map[a := Handle(0, SpecOf(a), 0, 0)], map[], true, 0, false),
          map[0 := CloseWaiting, 1 := Draining], map[], map[], {1}, 2, 0)
  }

  function ClosingDetached(cfg: Config, a: Id): State {
    State(Core(cfg, map[], map[], true, 0, false),
          map[0 := CloseClosing([Handle(0, SpecOf(a), 0, 0)], false), 1 := Draining], map[], map[], {1}, 2, 0)
  }

  lemma BeginsClosing(cfg: Config, a: Id, b: Id)
    requires a != b && b in cfg.workspaces && Reaches(cfg, Lent(cfg, map[a := Handle(0, SpecOf(a), 0, 0)], 1, b))
    ensures Reaches(cfg, ClosingLent(cfg, a, b))
  {
    var s := Lent(cfg, map[a := Handle(0, SpecOf(a), 0, 0)], 1, b);
    assert AfterCloseStart(s, 0) == ClosingLent(cfg, a, b);
    OneStep(cfg, s, CloseStart(0));
  }

  lemma ReleasesWhileClosing(cfg: Config, a: Id, b: Id)
    requires a != b && Reaches(cfg, ClosingLent(cfg, a, b))
    ensures Reaches(cfg, ClosingDiscard(cfg, a, b))
  {
    var s := ClosingLent(cfg, a, b);
    assert s.borrows - {0} == map[] && s.lent - {0} == map[];
    assert s.core.open - {b} == map[a := Handle(0, SpecOf(a), 0, 0)];
    assert AfterRelease(s, 0, 1, 0) == ClosingDiscard(cfg, a, b);
    OneStep(cfg, s, Release(0, 1, 0));
  }

  lemma DiscardsWhileClosing(cfg: Config, a: Id, b: Id)
    requires Reaches(cfg, ClosingDiscard(cfg, a, b))
    ensures Reaches(cfg, ClosingDrain(cfg, a))
  {
    var s := ClosingDiscard(cfg, a, b);
    assert AfterDiscard(s, 1) == ClosingDrain(cfg, a);
    OneStep(cfg, s, DiscardStep(1));
  }

  lemma DetachesIdle(cfg: Config, a: Id)
    requires Reaches(cfg, ClosingDrain(cfg, a))
    ensures Reaches(cfg, ClosingDetached(cfg, a))
  {
    var s, ha := ClosingDrain(cfg, a), Handle(0, SpecOf(a), 0, 0);
    assert IdleIds(s.core.open) == {a} && Lists(s.core.open, {a}, [ha]);
    assert IdleDetached(s.core).open == map[];
    assert AfterDetach(s, 0, [ha]) == ClosingDetached(cfg, a);
    OneStep(cfg, s, CloseDetach(0, [ha]));
  }

  lemma DrainsTooEarly(cfg: Config, a: Id)
    requires Reaches(cfg, ClosingDetached(cfg, a))
    ensures exists s: State, t: nat :: Reaches(cfg, s) && Unclosed(s, t)
  {
    var s := ClosingDetached(cfg, a);
    OneStep(cfg, s, Drain(1));
    var s' := AfterDrain(s, 1);
    assert s'.core.down && 0 in s'.tasks && s'.tasks[0].Handles() == [Handle(0, SpecOf(a), 0, 0)];
    assert Unclosed(s', 0);
  }

  /** `a` is idle and `b` is released after Close began. */
  lemma LateDiscardShutsDown(cfg: Config, a: Id, b: Id)
    requires a != b && a in cfg.workspaces && b in cfg.workspaces && 2 <= cfg.maxOpen
    ensures exists s: State, t: nat :: Reaches(cfg, s) && Unclosed(s, t)
  {
    assert Legal(Start(cfg)) && Plain(Start(cfg), cfg) && End(Start(cfg)) == Quiet(cfg, map[], 0);
    OpenAndRelease(cfg, map[], 0, a);
    var one := map[a := Handle(0, SpecOf(a), 0, 0)];
    assert map[][a := Handle(0, SpecOf(a), 0, 0)] == one && |one| == 1;
    StartsOpening(cfg, one, 1, b);
    FinishesOpening(cfg, one, 1, b);
    BeginsClosing(cfg, a, b);
    ReleasesWhileClosing(cfg, a, b);
    DiscardsWhileClosing(cfg, a, b);
    DetachesIdle(cfg, a);
    DrainsTooEarly(cfg, a);
  }

  predicate Drains(task: Task) { task.Discarding? || task.Draining? }

  /** Close holds handles that it has not closed. */
  ghost predicate HoldsQueue(s: State) { exists t :: t in s.tasks && s.tasks[t].CloseClosing? && s.tasks[t].queue != [] }
  ghost predicate SomeDrains(s: State) { exists t :: t in s.tasks && Drains(s.tasks[t]) }
  ghost predicate SomeCold(s: State) { exists t :: t in s.tasks && s.tasks[t].Cold() }

  /** Whatever can make the runtime go down too early takes two workspaces at once. */
  ghost predicate NeedsTwo(s: State, cfg: Config) {
    && (SomeDrains(s) && (s.core.open != map[] || HoldsQueue(s)) ==> TwoFit(cfg))
    && (HoldsQueue(s) && (s.core.open != map[] || SomeCold(s) || s.core.down) ==> TwoFit(cfg))
  }

  /** The conditions of NeedsTwo can only become true where two workspaces are seen. */
  lemma ReleaseNeedsTwo(s: State, token: nat, t: nat, now: int, cfg: Config)
    requires Inv(s) && Configured(s, cfg) && Occupied(s.core) <= cfg.maxOpen && NeedsTwo(s, cfg)
    requires Enabled(s, Release(token, t, now))
    ensures NeedsTwo(AfterRelease(s, token, t, now), cfg)
  {
    ReleaseFindsItsHandle(s, token);
    if ReleaseDiscards(s.core, s.borrows[token]) {
      DiscardNeedsTwoAtOnce(s, token, t, now, cfg);
    } else {
      PlainReleaseNeedsTwo(s, token, t, now, cfg);
    }
  }

  lemma PlainReleaseNeedsTwo(s: State, token: nat, t: nat, now: int, cfg: Config)
    requires NeedsTwo(s, cfg) && token in s.borrows && token in s.lent && s.borrows[token] in s.core.open
    requires !ReleaseDiscards(s.core, s.borrows[token])
    ensures NeedsTwo(AfterRelease(s, token, t, now), cfg)
  {
    assert AfterRelease(s, token, t, now).tasks == s.tasks;
  }

  lemma DiscardNeedsTwoAtOnce(s: State, token: nat, t: nat, now: int, cfg: Config)
    requires Reservations(s) && Configured(s, cfg) && Occupied(s.core) <= cfg.maxOpen && NeedsTwo(s, cfg)
    requires token in s.borrows && token in s.lent && s.borrows[token] in s.core.open && t !in s.tasks
    requires s.core.open[s.borrows[token]].hid == s.lent[token] && s.core.open[s.borrows[token]].refs > 0
    requires ReleaseDiscards(s.core, s.borrows[token])
    ensures NeedsTwo(AfterRelease(s, token, t, now), cfg)
  {
    var s' := AfterRelease(s, token, t, now);
    assert HoldsQueue(s') ==> HoldsQueue(s);
    assert SomeCold(s') ==> SomeCold(s);
    if s'.core.open != map[] {
      var other :| other in s'.core.open;
      TwoAtOnce(s, cfg, s.borrows[token], other);
    }
  }

  lemma FinishNeedsTwo(s: State, t: nat, ok: bool, token: nat, spec: Spec, now: int, cfg: Config)
    requires Inv(s) && ClosersApart(s) && Configured(s, cfg) && Occupied(s.core) <= cfg.maxOpen && NeedsTwo(s, cfg)
    requires Enabled(s, FinishCold(t, ok, token, spec, now))
    ensures NeedsTwo(AfterFinish(s, t, ok, token, spec, now), cfg)
  {
    ColdIsReserved(s, t);
    var s' := AfterFinish(s, t, ok, token, spec, now);
    assert HoldsQueue(s') ==> HoldsQueue(s);
    assert SomeCold(s);
    if s.core.closing {
      if s.core.open != map[] {
        var other :| other in s.core.open;
        TwoAtOnce(s, cfg, s.tasks[t].id, other);
      }
    } else {
      NoCloserYet(s);
      assert SomeDrains(s') ==> SomeDrains(s);
    }
  }

  lemma DetachNeedsTwo(s: State, t: nat, queue: seq<Handle>, cfg: Config)
    requires Inv(s) && OneClose(s) && Configured(s, cfg) && Occupied(s.core) <= cfg.maxOpen && NeedsTwo(s, cfg)
    requires Enabled(s, CloseDetach(t, queue))
    ensures NeedsTwo(AfterDetach(s, t, queue), cfg)
  {
    var s' := AfterDetach(s, t, queue);
    assert SomeDrains(s') ==> SomeDrains(s);
    assert SomeCold(s') ==> SomeCold(s);
    if HoldsQueue(s') {
      assert queue != [] && queue[0] in queue;
      var id := queue[0].spec.id;
      assert id in s.core.open && id !in s'.core.open;
      if s'.core.open != map[] {
        var other :| other in s'.core.open;
        TwoAtOnce(s, cfg, id, other);
      }
      if SomeCold(s') {
        var u :| u in s.tasks && s.tasks[u].Cold();
        ColdIsReserved(s, u);
        TwoAtOnce(s, cfg, id, s.tasks[u].id);
      }
    }
  }

  lemma CloseStepNeedsTwo(s: State, t: nat, cfg: Config)
    requires OneClose(s) && NeedsTwo(s, cfg) && Enabled(s, CloseStep(t))
    ensures NeedsTwo(AfterClose(s, t), cfg)
  {
    var s' := AfterClose(s, t);
    assert HoldsQueue(s') ==> HoldsQueue(s);
    assert SomeCold(s') ==> SomeCold(s);
    if s'.tasks == s.tasks - {t} || s.tasks[t].queue != [] {
      assert SomeDrains(s') ==> SomeDrains(s);
    } else {
      assert !HoldsQueue(s');
    }
  }

  lemma DrainNeedsTwo(s: State, t: nat, cfg: Config)
    requires NeedsTwo(s, cfg) && Enabled(s, Drain(t))
    ensures NeedsTwo(AfterDrain(s, t), cfg)
  {
    var s' := AfterDrain(s, t);
    assert HoldsQueue(s') ==> HoldsQueue(s);
    assert SomeCold(s') ==> SomeCold(s);
    assert SomeDrains(s);
  }

  lemma DiscardNeedsTwo(s: State, t: nat, cfg: Config)
    requires Reservations(s) && NeedsTwo(s, cfg) && Enabled(s, DiscardStep(t))
    ensures NeedsTwo(AfterDiscard(s, t), cfg)
  {
    var s' := AfterDiscard(s, t);
    assert HoldsQueue(s') ==> HoldsQueue(s);
    if SomeDrains(s') {
      var u :| u in s'.tasks && Drains(s'.tasks[u]);
      assert u in s.tasks && Drains(s.tasks[u]);
    }
    if SomeCold(s') {
      var u :| u in s'.tasks && s'.tasks[u].Cold();
      assert u in s.tasks && s.tasks[u].Cold();
    }
    if s.tasks[t].EvictDrained? {
      ColdIsReserved(s, t);
    }
  }

  /** Nothing is being closed down. */
  lemma QuietNeedsNothing(s: State, cfg: Config)
    requires forall t | t in s.tasks :: !OnlyClosing(s.tasks[t]) || s.tasks[t].CloseWaiting?
    ensures NeedsTwo(s, cfg)
  {
  }

  lemma BorrowNeedsNothing(s: State, id: Id, token: nat, now: int, cfg: Config)
    requires ClosersApart(s) && Enabled(s, Borrow(id, token, now))
    ensures NeedsTwo(AfterBorrow(s, id, token, now), cfg)
  {
    NoCloserYet(s);
    QuietNeedsNothing(AfterBorrow(s, id, token, now), cfg);
  }

  lemma StartNeedsNothing(s: State, id: Id, t: nat, victim: Option<Id>, cfg: Config)
    requires ClosersApart(s) && Enabled(s, StartCold(id, t, victim))
    ensures NeedsTwo(AfterStart(s, id, t, victim), cfg)
  {
    NoCloserYet(s);
    QuietNeedsNothing(AfterStart(s, id, t, victim), cfg);
  }

  lemma CloseStartNeedsNothing(s: State, t: nat, cfg: Config)
    requires ClosersApart(s) && Enabled(s, CloseStart(t))
    ensures NeedsTwo(AfterCloseStart(s, t), cfg)
  {
    NoCloserYet(s);
    QuietNeedsNothing(AfterCloseStart(s, t), cfg);
  }

  lemma StepNeedsTwo(s: State, e: Step, cfg: Config)
    requires Inv(s) && ClosersApart(s) && PlainInv(s, cfg) && Occupied(s.core) <= cfg.maxOpen
    requires NeedsTwo(s, cfg) && Enabled(s, e) && !e.Reload?
    ensures NeedsTwo(Apply(s, e), cfg)
  {
    match e
    case Borrow(id, token, now) => BorrowNeedsNothing(s, id, token, now, cfg);
    case StartCold(id, t, victim) => StartNeedsNothing(s, id, t, victim, cfg);
    case DiscardStep(t) => DiscardNeedsTwo(s, t, cfg);
    case FinishCold(t, ok, token, spec, now) => FinishNeedsTwo(s, t, ok, token, spec, now, cfg);
    case Release(token, t, now) => ReleaseNeedsTwo(s, token, t, now, cfg);
    case Drain(t) => DrainNeedsTwo(s, t, cfg);
    case CloseStart(t) => CloseStartNeedsNothing(s, t, cfg);
    case CloseDetach(t, queue) => DetachNeedsTwo(s, t, queue, cfg);
    case CloseStep(t) => CloseStepNeedsTwo(s, t, cfg);
    case ReloadStep(_) =>
  }

  lemma {:induction false} PlainRunNeedsTwo(r: Run, cfg: Config)
    requires Legal(r) && Plain(r, cfg)
    ensures NeedsTwo(End(r), cfg)
  {
    if r.Then? {
      PlainRunNeedsTwo(r.before, cfg);
      PlainRun(r.before, cfg);
      OpenNeverExceedsLimit(r.before);
      StepNeedsTwo(End(r.before), r.e, cfg);
    }
  }

  /** Without reloads: the runtime can go down before Close has closed what it took out if and
      only if two workspaces can be open at once. */
  lemma RuntimeDownTooEarlyIff(cfg: Config)
    ensures (exists s: State, t: nat :: Reaches(cfg, s) && Unclosed(s, t)) <==> TwoFit(cfg)
  {
    if s: State, t: nat :| Reaches(cfg, s) && Unclosed(s, t) {
      var r :| Legal(r) && Plain(r, cfg) && End(r) == s;
      UnclosedWhenDownIff(r, t);
      PlainRunNeedsTwo(r, cfg);
      assert HoldsQueue(s);
    }
    if TwoFit(cfg) {
      var a := Unopened(cfg, map[]);
      var b := Unopened(cfg, map[a := IdleHandle(a, 0)]);
      LateDiscardShutsDown(cfg, a, b);
    }
  }
}
