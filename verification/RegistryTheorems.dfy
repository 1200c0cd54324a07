/**
 What holds in every reachable state of the registry.
 */
module RegistryTheorems {
  import opened Options
  import opened RegistryModel
  import opened RegistryProtocol

  /** A finite run: an initial configuration followed by enabled steps. */
  datatype Run = Start(cfg: Config) | Then(before: Run, e: Step)

  ghost predicate Legal(r: Run)
    decreases r, 0
  {
    r.Then? ==> Legal(r.before) && Enabled(End(r.before), r.e)
  }

  ghost function End(r: Run): State
    requires Legal(r)
    decreases r, 1
  {
    match r
    case Start(cfg) => Init(cfg)
    case Then(before, e) => Apply(End(before), e)
  }

  lemma {:induction false} Reachable(r: Run)
    requires Legal(r)
    ensures Inv(End(r))
  {
    if r.Then? {
      Reachable(r.before);
      StepKeepsInv(End(r.before), r.e);
    }
  }

  /** A lent handle stays the open one until it is released: its count equals the
      unreleased borrows, nobody is closing it and it has not been closed. */
  lemma BorrowedHandleIsAlive(r: Run, token: nat)
    requires Legal(r) && token in End(r).borrows
    ensures var s := End(r);
      && s.borrows[token] in s.core.open
      && token in s.lent && s.core.open[s.borrows[token]].hid == s.lent[token]
      && s.core.open[s.borrows[token]].refs == |Tokens(s.borrows, s.borrows[token])| > 0
      && s.lent[token] !in s.shut
      && (forall t, h | t in s.tasks && h in s.tasks[t].Handles() :: h.hid != s.lent[token])
  {
    Reachable(r);
    var s := End(r);
    ReleaseFindsItsHandle(s, token);
    forall t, h | t in s.tasks && h in s.tasks[t].Handles() ensures h.hid != s.lent[token] {
      assert HandlesGone(s.core.open, s.nextHid, s.tasks[t]);
    }
  }

  /** The native runtime goes down at most once, with no borrow and no cold open left,
      and nothing is granted afterwards. */
  lemma RuntimeDownIsFinal(r: Run)
    requires Legal(r)
    ensures End(r).downs <= 1
    ensures End(r).core.down ==> End(r).borrows == map[]
    ensures End(r).core.down ==> forall t | t in End(r).tasks :: !End(r).tasks[t].Cold()
    ensures End(r).core.down ==> forall e | Enabled(End(r), e) :: !e.Borrow? && !e.StartCold? && !e.FinishCold?
  {
    Reachable(r);
    var s := End(r);
    if s.core.down {
      forall t | t in s.tasks ensures !s.tasks[t].Cold() {
        if s.tasks[t].Cold() { ColdIsReserved(s, t); }
      }
      forall token | token in s.borrows ensures false {
        ReleaseFindsItsHandle(s, token);
      }
    }
  }

  lemma {:induction false} DownStaysDown(r: Run, earlier: Run)
    requires Legal(r) && Prefix(earlier, r)
    ensures Legal(earlier) && (End(earlier).core.down ==> End(r).core.down)
  {
    if r != earlier {
      DownStaysDown(r.before, earlier);
      if End(r.before).core.down {
        StepKeepsDown(End(r.before), r.e);
      }
    }
  }

  lemma TaskStepsKeepDown(s: State, t: nat)
    requires t in s.tasks && s.core.down
    ensures s.tasks[t].Reload() ==> AfterReload(s, t).core.down
    ensures s.tasks[t].Evicting? || s.tasks[t].EvictClosing? || s.tasks[t].EvictDrained? || s.tasks[t].Discarding? ==>
      AfterDiscard(s, t).core.down
    ensures s.tasks[t].CloseClosing? ==> AfterClose(s, t).core.down
    ensures AfterDrain(s, t).core.down
  {
  }

  lemma StepKeepsDown(s: State, e: Step)
    requires Enabled(s, e) && s.core.down
    ensures Apply(s, e).core.down
  {
    match e
    case DiscardStep(t) => TaskStepsKeepDown(s, t);
    case Drain(t) => TaskStepsKeepDown(s, t);
    case ReloadStep(t) => TaskStepsKeepDown(s, t);
    case CloseStep(t) => TaskStepsKeepDown(s, t);
    case _ =>
  }

  ghost predicate Prefix(a: Run, r: Run) {
    a == r || (r.Then? && Prefix(a, r.before))
  }

  /** While a reload still holds a handle of a changed collection, that id is neither
      open nor being opened, and no new open of it can start. */
  lemma ReloadKeepsTheIdClosed(r: Run, t: nat, h: Handle)
    requires Legal(r) && t in End(r).tasks && End(r).tasks[t].Reload() && h in End(r).tasks[t].Handles()
    ensures var s := End(r);
      && h.spec.id !in s.core.open
      && (forall u | u in s.tasks && s.tasks[u].Cold() :: s.tasks[u].id != h.spec.id)
      && (forall u, victim :: !Enabled(s, StartCold(h.spec.id, u, victim)))
  {
    Reachable(r);
    var s := End(r);
    ReloadIsReserved(s, t, h);
    forall u | u in s.tasks && s.tasks[u].Cold() ensures s.tasks[u].id != h.spec.id {
      ColdIsReserved(s, u);
    }
  }

  // --- the limit on open workspaces ------------------------------------------

  ghost function ColdIds(opening: map<Id, Wait>): set<Id> {
    set id | id in opening && opening[id].ColdOpen?
  }

  /** Open workspaces plus cold opens in progress. */
  ghost function Occupied(c: Core): nat {
    |c.open.Keys| + |ColdIds(c.opening)|
  }

  ghost predicate KeepsLimit(s: State, e: Step) {
    e.Reload? ==> e.cfg.maxOpen >= s.core.cfg.maxOpen
  }

  lemma SubsetSize<T>(a: set<T>, b: set<T>)
    requires a <= b
    ensures |a| <= |b|
  {
    assert b == a + (b - a);
  }

  lemma ReserveKeepsLimit(c: Core, id: Id, t: nat, victim: Option<Id>)
    requires Occupied(c) <= c.cfg.maxOpen && id !in c.opening
    requires victim.None? ==> |c.open| + |c.opening| < c.cfg.maxOpen
    requires victim.Some? ==> victim.value in c.open
    ensures Occupied(Reserve(c, id, t, victim)) <= c.cfg.maxOpen
  {
    var c' := Reserve(c, id, t, victim);
    assert ColdIds(c'.opening) == ColdIds(c.opening) + {id};
    SubsetSize(ColdIds(c.opening), c.opening.Keys);
    assert |c.open| == |c.open.Keys| && |c.opening| == |c.opening.Keys|;
    if victim.Some? {
      assert c'.open.Keys == c.open.Keys - {victim.value};
    }
  }

  lemma FinishKeepsLimit(c: Core, id: Id, h: Option<Handle>)
    requires id in c.opening && c.opening[id].ColdOpen?
    ensures Occupied(FinishOpen(c, id, h)) <= Occupied(c)
  {
    var c' := FinishOpen(c, id, h);
    assert ColdIds(c'.opening) == ColdIds(c.opening) - {id} && id in ColdIds(c.opening);
    assert c'.open.Keys == c.open.Keys || c'.open.Keys == c.open.Keys + {id};
  }

  /** No workspace is opened and no cold open is started or finished. */
  ghost predicate NoGrowth(c: Core, c': Core) {
    && (forall id | id in c'.open :: id in c.open)
    && (forall id :: (id in c'.opening && c'.opening[id].ColdOpen?) <==> (id in c.opening && c.opening[id].ColdOpen?))
  }

  lemma NoGrowthKeepsLimit(c: Core, c': Core)
    requires NoGrowth(c, c')
    ensures Occupied(c') <= Occupied(c)
  {
    assert ColdIds(c'.opening) == ColdIds(c.opening);
    SubsetSize(c'.open.Keys, c.open.Keys);
  }

  lemma ReloadIsNoGrowth(c: Core, cfg: Config, t: nat, indexing: set<Id>)
    requires Busy(c, Changed(c.cfg, cfg), indexing) == {}
    ensures NoGrowth(c, Reloaded(c, cfg, t))
  {
    NotBusyMeansIdle(c, Changed(c.cfg, cfg), indexing);
  }

  lemma ReleaseIsNoGrowth(s: State, token: nat, t: nat, now: int)
    requires token in s.borrows && token in s.lent
    ensures NoGrowth(s.core, AfterRelease(s, token, t, now).core)
  {
  }

  lemma ReloadStepIsNoGrowth(s: State, t: nat)
    requires t in s.tasks && s.tasks[t].Reload()
    ensures NoGrowth(s.core, AfterReload(s, t).core)
  {
  }

  lemma SmallStepIsNoGrowth(s: State, e: Step)
    requires Enabled(s, e) && (e.Borrow? || e.DiscardStep? || e.Drain? || e.CloseStart? || e.CloseDetach? || e.CloseStep?)
    ensures NoGrowth(s.core, Apply(s, e).core) && Apply(s, e).core.cfg == s.core.cfg
  {
  }

  lemma OtherStepIsNoGrowth(s: State, e: Step)
    requires Enabled(s, e) && KeepsLimit(s, e) && !e.StartCold? && !e.FinishCold?
    ensures NoGrowth(s.core, Apply(s, e).core) && Apply(s, e).core.cfg.maxOpen >= s.core.cfg.maxOpen
  {
    match e
    case Reload(t, cfg, indexing, _) => ReloadIsNoGrowth(s.core, cfg, t, indexing);
    case Release(token, t, now) => ReleaseIsNoGrowth(s, token, t, now);
    case ReloadStep(t) => ReloadStepIsNoGrowth(s, t);
    case _ => SmallStepIsNoGrowth(s, e);
  }

  lemma StepKeepsLimit(s: State, e: Step)
    requires Reservations(s) && Enabled(s, e) && KeepsLimit(s, e) && Occupied(s.core) <= s.core.cfg.maxOpen
    ensures Occupied(Apply(s, e).core) <= Apply(s, e).core.cfg.maxOpen
  {
    if e.StartCold? {
      ReserveKeepsLimit(s.core, e.id, e.task, e.victim);
    } else if e.FinishCold? {
      ColdIsReserved(s, e.task);
      var h := Handle(s.nextHid, e.spec, if s.core.closing then 0 else 1, e.now);
      FinishKeepsLimit(s.core, s.tasks[e.task].id, if e.ok then Some(h) else None);
    } else {
      OtherStepIsNoGrowth(s, e);
      NoGrowthKeepsLimit(s.core, Apply(s, e).core);
    }
  }

  ghost predicate LimitKept(r: Run) {
    r.Then? ==> LimitKept(r.before) && Legal(r.before) && KeepsLimit(End(r.before), r.e)
  }

  /** Reservations made by a reload are not counted: they may exceed the limit. */
  lemma {:induction false} OpenNeverExceedsLimit(r: Run)
    requires Legal(r) && LimitKept(r)
    ensures Occupied(End(r).core) <= End(r).core.cfg.maxOpen
  {
    if r.Then? {
      OpenNeverExceedsLimit(r.before);
      Reachable(r.before);
      StepKeepsLimit(End(r.before), r.e);
    } else {
      assert ColdIds(End(r).core.opening) == {};
    }
  }
}
