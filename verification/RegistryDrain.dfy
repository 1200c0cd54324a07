/**
 Whether the native runtime goes down once a closing registry has drained. Each check of the
 drain is made by the goroutine that ended something; some endings are not followed by one.
 */
module RegistryDrain {
  import opened Options
  import opened RegistryModel
  import opened RegistryProtocol
  import opened RegistryTheorems
  import opened RegistryGaps

  /** The task checks the drain before it ends, or may end in a way that needs no check. */
  predicate Pending(task: Task) {
    || task.Cold() || task.Reload() || task.Discarding? || task.Draining? || task.CloseWaiting?
    || (task.CloseClosing? && !task.skip)
  }

  ghost predicate SomePending(tasks: map<nat, Task>) { exists t :: t in tasks && Pending(tasks[t]) }

  ghost predicate NonePendingBut(tasks: map<nat, Task>, t: nat) { forall u | u in tasks && u != t :: !Pending(tasks[u]) }

  /** Closing, everything has drained, the runtime is up, and nobody is left to take it down. */
  ghost predicate Stranded(s: State) { s.core.closing && !s.core.down && s.core.open == map[] && !SomePending(s.tasks) }

  /** The goroutine ends something without checking the drain: a cold open that failed, or a
      reload that gives its ids back. */
  ghost predicate EndsUnchecked(s: State, e: Step) {
    || (e.FinishCold? && !e.ok)
    || (e.ReloadStep? && e.task in s.tasks && s.tasks[e.task].Reloading? && s.tasks[e.task].queue == [])
  }

  // --- every step ----------------------------------------------------------------------------------

  lemma CountedIsPending(s: State)
    requires DiscardsExact(s) && s.core.discards > 0
    ensures exists t :: t in s.tasks && s.tasks[t].Counted()
  {
    var t :| t in CountedTasks(s.tasks);
  }

  /** Task `t` goes on to something that is pending. */
  lemma GoesOn(s: State, t: nat)
    requires t in s.tasks && Pending(s.tasks[t])
    ensures !Stranded(s)
  {
  }

  lemma OthersGoOn(s: State, s': State, t: nat)
    requires s'.core.closing ==> SomePending(s.tasks) || s'.core.open != map[]
    requires forall u | u in s.tasks && u != t :: u in s'.tasks && s'.tasks[u] == s.tasks[u]
    requires t in s.tasks && Pending(s.tasks[t]) ==> t in s'.tasks && Pending(s'.tasks[t])
    ensures !Stranded(s')
  {
    if s'.core.closing && s'.core.open == map[] {
      var u :| u in s.tasks && Pending(s.tasks[u]);
      assert u in s'.tasks && Pending(s'.tasks[u]);
    }
  }

  lemma DiscardGoesOn(s: State, t: nat)
    requires Enabled(s, DiscardStep(t))
    ensures !Stranded(AfterDiscard(s, t))
  {
    GoesOn(AfterDiscard(s, t), t);
  }

  lemma FinishStrandsIff(s: State, t: nat, ok: bool, token: nat, spec: Spec, now: int)
    requires Reservations(s) && DownIsFinal(s) && Enabled(s, FinishCold(t, ok, token, spec, now))
    ensures Stranded(AfterFinish(s, t, ok, token, spec, now)) <==>
            !ok && s.core.closing && s.core.open == map[] && NonePendingBut(s.tasks, t)
  {
    ColdIsReserved(s, t);
    var s' := AfterFinish(s, t, ok, token, spec, now);
    if ok && s.core.closing {
      GoesOn(s', t);
    } else if !ok {
      RemovedIff(s.tasks, t);
      assert s'.tasks == s.tasks - {t};
    }
  }

  lemma RemovedIff(tasks: map<nat, Task>, t: nat)
    ensures SomePending(tasks - {t}) <==> !NonePendingBut(tasks, t)
  {
    if !NonePendingBut(tasks, t) {
      var u :| u in tasks && u != t && Pending(tasks[u]);
      assert u in tasks - {t} && Pending((tasks - {t})[u]);
    }
  }

  lemma ReleaseGoesOn(s: State, token: nat, t: nat, now: int)
    requires RefsExact(s) && Enabled(s, Release(token, t, now)) && !Stranded(s)
    ensures !Stranded(AfterRelease(s, token, t, now))
  {
    ReleaseFindsItsHandle(s, token);
    var s' := AfterRelease(s, token, t, now);
    if ReleaseDiscards(s.core, s.borrows[token]) {
      GoesOn(s', t);
    } else {
      assert s.borrows[token] in s'.core.open;
    }
  }

  lemma DrainGoesOn(s: State, t: nat)
    requires Reservations(s) && DiscardsExact(s) && Enabled(s, Drain(t))
    ensures !Stranded(AfterDrain(s, t))
  {
    var s' := AfterDrain(s, t);
    if s.core.closing && !s'.core.down && s.core.open == map[] {
      if s.core.opening != map[] {
        var id :| id in s.core.opening;
        var u := s.core.opening[id].task;
        assert RoleAt(s.tasks, u).Claims(id);
        assert u in s'.tasks && Pending(s'.tasks[u]);
      } else {
        CountedIsPending(s);
        var u :| u in s.tasks && s.tasks[u].Counted();
        assert u in s'.tasks && Pending(s'.tasks[u]);
      }
    }
  }

  lemma DetachGoesOn(s: State, t: nat, queue: seq<Handle>)
    requires Reservations(s) && DiscardsExact(s) && Enabled(s, CloseDetach(t, queue))
    ensures !Stranded(AfterDetach(s, t, queue))
  {
    var s' := AfterDetach(s, t, queue);
    if s'.core.open == map[] && s'.tasks[t].skip {
      if s.core.opening != map[] {
        var id :| id in s.core.opening;
        var u := s.core.opening[id].task;
        assert RoleAt(s.tasks, u).Claims(id);
        assert u in s'.tasks && Pending(s'.tasks[u]);
      } else {
        CountedIsPending(s);
        var u :| u in s.tasks && s.tasks[u].Counted();
        assert u in s'.tasks && Pending(s'.tasks[u]);
      }
    } else if s'.core.open == map[] {
      GoesOn(s', t);
    }
  }

  lemma CloseGoesOn(s: State, t: nat)
    requires Enabled(s, CloseStep(t)) && !Stranded(s)
    ensures !Stranded(AfterClose(s, t))
  {
    if s.core.closing && !s.core.down {
      OthersGoOn(s, AfterClose(s, t), t);
    }
  }

  lemma ReloadStrandsIff(s: State, t: nat)
    requires Enabled(s, ReloadStep(t))
    ensures Stranded(AfterReload(s, t)) <==>
            && s.tasks[t].Reloading? && s.tasks[t].queue == [] && s.core.closing && !s.core.down && s.core.open == map[]
            && NonePendingBut(s.tasks, t)
  {
    var s' := AfterReload(s, t);
    if s.tasks[t].Reloading? && s.tasks[t].queue == [] {
      RemovedIff(s.tasks, t);
      assert s'.tasks == s.tasks - {t};
    } else {
      GoesOn(s', t);
    }
  }

  /** Nothing strands the runtime but an unchecked ending of the last thing there was. */
  lemma StrandsIff(s: State, e: Step)
    requires Inv(s) && Enabled(s, e) && !Stranded(s)
    ensures Stranded(Apply(s, e)) <==>
            && EndsUnchecked(s, e) && s.core.closing && !s.core.down && s.core.open == map[] && NonePendingBut(s.tasks, e.task)
  {
    match e
    case Borrow(id, token, now) =>
    case StartCold(id, t, victim) => GoesOn(AfterStart(s, id, t, victim), t);
    case DiscardStep(t) => DiscardGoesOn(s, t);
    case FinishCold(t, ok, token, spec, now) => ColdMeansUp(s, t); FinishStrandsIff(s, t, ok, token, spec, now);
    case Release(token, t, now) => ReleaseGoesOn(s, token, t, now);
    case Drain(t) => DrainGoesOn(s, t);
    case Reload(t, cfg, indexing, queue) => GoesOn(AfterSwap(s, t, cfg, queue), t);
    case ReloadStep(t) => ReloadStrandsIff(s, t);
    case CloseStart(t) => GoesOn(AfterCloseStart(s, t), t);
    case CloseDetach(t, queue) => DetachGoesOn(s, t, queue);
    case CloseStep(t) => CloseGoesOn(s, t);
  }

  lemma ColdMeansUp(s: State, t: nat)
    requires Reservations(s) && DownIsFinal(s) && t in s.tasks && s.tasks[t].Cold()
    ensures !s.core.down
  {
    ColdIsReserved(s, t);
  }

  /** A runtime that has been stranded stays up. */
  lemma StrandedStays(s: State, e: Step)
    requires Inv(s) && Stranded(s) && Enabled(s, e)
    ensures Stranded(Apply(s, e))
  {
    if e.Release? {
      ReleaseFindsItsHandle(s, e.token);
    } else {
      assert e.CloseStep?;
    }
  }

  // --- whole runs ------------------------------------------------------------------------------------

  /** Some cold open failed, or some reload gave its ids back, as the last thing there was. */
  ghost predicate EverStranded(r: Run)
    requires Legal(r)
  {
    Stranded(End(r)) || (r.Then? && EverStranded(r.before))
  }

  /** Once everything has drained and every goroutine has ended, the runtime is down if and only
      if no ending of that kind was the last. */
  lemma {:induction false} DrainedIsDownIff(r: Run)
    requires Legal(r) && End(r).core.closing && End(r).core.open == map[] && End(r).tasks == map[]
    ensures End(r).core.down <==> !EverStranded(r)
  {
    if EverStranded(r) {
      StaysStranded(r);
    }
  }

  lemma {:induction false} StaysStranded(r: Run)
    requires Legal(r) && EverStranded(r)
    ensures Stranded(End(r))
  {
    if !Stranded(End(r)) {
      StaysStranded(r.before);
      Reachable(r.before);
      StrandedStays(End(r.before), r.e);
    }
  }

  // --- for which configurations it happens ---------------------------------------------------------------

  /** A cold open in progress when Close gives up waiting for it. */
  function ClosingOpen(cfg: Config, id: Id): State {
    State(Core(cfg, map[], map[id := ColdOpen(0)], true, 0, false), map[0 := Initing(id), 1 := CloseWaiting], map[], map[], {}, 0, 0)
  }

  function SkippedOpen(cfg: Config, id: Id): State {
    State(Core(cfg, map[], map[id := ColdOpen(0)], true, 0, false), map[0 := Initing(id), 1 := CloseClosing([], true)],
          map[], map[], {}, 0, 0)
  }

  function LoneOpen(cfg: Config, id: Id): State {
    State(Core(cfg, map[], map[id := ColdOpen(0)], true, 0, false), map[0 := Initing(id)], map[], map[], {}, 0, 0)
  }

  function LeftUp(cfg: Config): State { State(Core(cfg, map[], map[], true, 0, false), map[], map[], map[], {}, 0, 0) }

  lemma OpensWhileClosing(cfg: Config, id: Id)
    requires id in cfg.workspaces && 1 <= cfg.maxOpen
    ensures Reaches(cfg, ClosingOpen(cfg, id))
  {
    assert Legal(Start(cfg)) && Plain(Start(cfg), cfg) && End(Start(cfg)) == Quiet(cfg, map[], 0);
    StartsOpening(cfg, map[], 0, id);
    var s := Opening(cfg, map[], 0, id);
    assert AfterCloseStart(s, 1) == ClosingOpen(cfg, id);
    OneStep(cfg, s, CloseStart(1));
  }

  lemma CloseGivesUp(cfg: Config, id: Id)
    requires Reaches(cfg, ClosingOpen(cfg, id))
    ensures Reaches(cfg, LoneOpen(cfg, id))
  {
    var s := ClosingOpen(cfg, id);
    assert IdleIds(s.core.open) == {} && Lists(s.core.open, {}, []);
    assert IdleDetached(s.core).open == map[];
    assert AfterDetach(s, 1, []) == SkippedOpen(cfg, id);
    OneStep(cfg, s, CloseDetach(1, []));
    var s' := SkippedOpen(cfg, id);
    assert s'.tasks - {1} == map[0 := Initing(id)];
    assert AfterClose(s', 1) == LoneOpen(cfg, id);
    OneStep(cfg, s', CloseStep(1));
  }

  lemma OpenFailsLate(cfg: Config, id: Id)
    requires Reaches(cfg, LoneOpen(cfg, id))
    ensures Reaches(cfg, LeftUp(cfg)) && Stranded(LeftUp(cfg))
  {
    var s := LoneOpen(cfg, id);
    assert s.core.opening - {id} == map[] && s.tasks - {0} == map[];
    assert AfterFinish(s, 0, false, 0, SpecOf(id), 0) == LeftUp(cfg);
    OneStep(cfg, s, FinishCold(0, false, 0, SpecOf(id), 0));
  }

  lemma {:induction false} StrandingNeedsOne(r: Run, cfg: Config)
    requires Legal(r) && Plain(r, cfg) && Stranded(End(r))
    ensures 1 <= cfg.maxOpen && cfg.workspaces != map[]
  {
    if r.Then? {
      if Stranded(End(r.before)) {
        StrandingNeedsOne(r.before, cfg);
      } else {
        PlainRun(r.before, cfg);
        StrandsIff(End(r.before), r.e);
        OpenNeverExceedsLimit(r.before);
        ColdNeedsOne(End(r.before), r.e.task, cfg);
      }
    }
  }

  lemma ColdNeedsOne(s: State, t: nat, cfg: Config)
    requires Reservations(s) && Configured(s, cfg) && Occupied(s.core) <= cfg.maxOpen && t in s.tasks && s.tasks[t].Cold()
    ensures 1 <= cfg.maxOpen && cfg.workspaces != map[]
  {
    ColdIsReserved(s, t);
    assert s.tasks[t].id in ColdIds(s.core.opening) && s.tasks[t].id in cfg.workspaces;
  }

  /** Without reloads: a closed registry can be left with the runtime up for good if and only if
      a workspace can be opened at all. */
  lemma StrandedIff(cfg: Config)
    ensures (exists s :: Reaches(cfg, s) && Stranded(s)) <==> 1 <= cfg.maxOpen && cfg.workspaces != map[]
  {
    if 1 <= cfg.maxOpen && cfg.workspaces != map[] {
      var id :| id in cfg.workspaces;
      OpensWhileClosing(cfg, id);
      CloseGivesUp(cfg, id);
      OpenFailsLate(cfg, id);
    }
    if s :| Reaches(cfg, s) && Stranded(s) {
      var r :| Legal(r) && Plain(r, cfg) && End(r) == s;
      StrandingNeedsOne(r, cfg);
    }
  }
}
