/**
 Where the handles of the registry are: each one ever made is open, or in the hands of one
 task, or closed, and in one of these places only.
 */
module RegistryHandles {
  import opened Options
  import opened RegistryModel
  import opened RegistryProtocol
  import opened RegistryTheorems

  function HandlesOf(tasks: map<nat, Task>, t: nat): seq<Handle> { if t in tasks then tasks[t].Handles() else [] }

  ghost predicate Held(tasks: map<nat, Task>, t: nat, hid: nat) { exists h :: h in HandlesOf(tasks, t) && h.hid == hid }

  ghost predicate IsOpen(open: map<Id, Handle>, hid: nat) { !NotOpen(open, hid) }

  /** No task holds a handle twice. */
  ghost predicate Single(hs: seq<Handle>) { forall i, j | 0 <= i < j < |hs| :: hs[i].hid != hs[j].hid }

  /** Every handle is somewhere; OpenIsAlive says that an open one is nowhere else. */
  ghost predicate Placed(s: State) {
    && (forall hid: nat | hid < s.nextHid :: Somewhere(s, hid))
    && (forall t, hid: nat :: Held(s.tasks, t, hid) ==> hid !in s.shut)
    && (forall t, u, hid: nat :: Held(s.tasks, t, hid) && Held(s.tasks, u, hid) ==> t == u)
    && (forall t: nat :: Single(HandlesOf(s.tasks, t)))
  }

  ghost predicate Somewhere(s: State, hid: nat) {
    IsOpen(s.core.open, hid) || (exists t: nat :: Held(s.tasks, t, hid)) || hid in s.shut
  }

  /** One step moves handles between `open`, task `t` and `shut`, and may make a new one. */
  ghost predicate Transfer(s: State, s': State, t: nat) {
    && (forall u: nat | u != t :: HandlesOf(s'.tasks, u) == HandlesOf(s.tasks, u))
    && s.nextHid <= s'.nextHid <= s.nextHid + 1
    && (forall hid: nat | hid in s'.shut :: hid in s.shut || (Held(s.tasks, t, hid) && !Held(s'.tasks, t, hid)))
    && (forall hid: nat | Held(s'.tasks, t, hid) :: Held(s.tasks, t, hid) || IsOpen(s.core.open, hid) || hid == s.nextHid < s'.nextHid)
    && (forall hid: nat | IsOpen(s.core.open, hid) :: IsOpen(s'.core.open, hid) || Held(s'.tasks, t, hid))
    && (forall hid: nat | Held(s.tasks, t, hid) :: Held(s'.tasks, t, hid) || hid in s'.shut)
    && s.shut <= s'.shut
    && (s.nextHid < s'.nextHid ==> IsOpen(s'.core.open, s.nextHid) || Held(s'.tasks, t, s.nextHid))
    && Single(HandlesOf(s'.tasks, t))
  }

  ghost predicate Transfers(s: State, s': State) { exists t: nat :: Transfer(s, s', t) }

  /** What is open is held by no task and not closed. */
  lemma OpenIsNowhereElse(s: State, hid: nat)
    requires OpenIsAlive(s) && IsOpen(s.core.open, hid)
    ensures hid < s.nextHid && hid !in s.shut && forall t: nat :: !Held(s.tasks, t, hid)
  {
    forall t: nat ensures !Held(s.tasks, t, hid) {
      if t in s.tasks {
        assert HandlesGone(s.core.open, s.nextHid, s.tasks[t]);
      }
    }
  }

  lemma HeldIsOld(s: State, t: nat, hid: nat)
    requires OpenIsAlive(s) && Held(s.tasks, t, hid)
    ensures hid < s.nextHid
  {
    assert HandlesGone(s.core.open, s.nextHid, s.tasks[t]);
  }

  lemma TransferPlaces(s: State, s': State, t: nat)
    requires OpenIsAlive(s) && Placed(s) && Transfer(s, s', t)
    ensures forall hid: nat | hid < s'.nextHid :: Somewhere(s', hid)
  {
    forall hid: nat | hid < s'.nextHid ensures Somewhere(s', hid) {
      if hid < s.nextHid {
        assert Somewhere(s, hid);
        if u: nat :| Held(s.tasks, u, hid) {
          if u != t {
            assert Held(s'.tasks, u, hid);
          }
        }
      }
    }
  }

  lemma TransferApart(s: State, s': State, t: nat)
    requires OpenIsAlive(s) && Placed(s) && Transfer(s, s', t)
    ensures forall u, hid: nat :: Held(s'.tasks, u, hid) ==> hid !in s'.shut
    ensures forall u, v, hid: nat :: Held(s'.tasks, u, hid) && Held(s'.tasks, v, hid) ==> u == v
  {
    forall u: nat, hid: nat | u != t && Held(s'.tasks, u, hid) ensures hid !in s'.shut && !Held(s'.tasks, t, hid) {
      OthersHeld(s, s', t, u, hid);
    }
    forall hid: nat | Held(s'.tasks, t, hid) ensures hid !in s'.shut {
      if IsOpen(s.core.open, hid) {
        OpenIsNowhereElse(s, hid);
      } else if hid == s.nextHid && hid in s.shut {
        assert false;
      }
    }
    forall u, v, hid: nat | Held(s'.tasks, u, hid) && Held(s'.tasks, v, hid) ensures u == v {
      if u != t && v != t {
        assert Held(s.tasks, u, hid) && Held(s.tasks, v, hid);
      }
    }
  }

  lemma OthersHeld(s: State, s': State, t: nat, u: nat, hid: nat)
    requires OpenIsAlive(s) && Placed(s) && Transfer(s, s', t) && u != t && Held(s'.tasks, u, hid)
    ensures hid !in s'.shut && !Held(s'.tasks, t, hid)
  {
    assert Held(s.tasks, u, hid);
    HeldIsOld(s, u, hid);
    if IsOpen(s.core.open, hid) {
      OpenIsNowhereElse(s, hid);
    }
  }

  lemma TransferKeeps(s: State, s': State, t: nat)
    requires OpenIsAlive(s) && Placed(s) && Transfer(s, s', t)
    ensures Placed(s')
  {
    TransferPlaces(s, s', t);
    TransferApart(s, s', t);
    forall u: nat ensures Single(HandlesOf(s'.tasks, u)) {
      assert u != t ==> HandlesOf(s'.tasks, u) == HandlesOf(s.tasks, u);
    }
  }

  lemma PutTask(tasks: map<nat, Task>, t: nat, task: Task)
    ensures HandlesOf(tasks[t := task], t) == task.Handles()
    ensures forall u: nat | u != t :: HandlesOf(tasks[t := task], u) == HandlesOf(tasks, u)
    ensures forall u: nat | u != t :: HandlesOf(tasks - {t}, u) == HandlesOf(tasks, u)
    ensures HandlesOf(tasks - {t}, t) == []
  {
  }

  // --- every step is a transfer -------------------------------------------------------------

  lemma SameOpen(open: map<Id, Handle>, open': map<Id, Handle>)
    requires open.Keys == open'.Keys && forall id | id in open :: open'[id].hid == open[id].hid
    ensures forall hid: nat :: IsOpen(open, hid) <==> IsOpen(open', hid)
  {
    forall hid: nat ensures IsOpen(open, hid) <==> IsOpen(open', hid) {
      if id :| id in open && open[id].hid == hid {
        assert open'[id].hid == hid;
      }
      if id :| id in open' && open'[id].hid == hid {
        assert open[id].hid == hid;
      }
    }
  }

  /** Neither `open` nor any task's handles change. */
  lemma NothingMoves(s: State, s': State, t: nat)
    requires s'.core.open.Keys == s.core.open.Keys && forall id | id in s.core.open :: s'.core.open[id].hid == s.core.open[id].hid
    requires s'.shut == s.shut && s'.nextHid == s.nextHid && forall u: nat :: HandlesOf(s'.tasks, u) == HandlesOf(s.tasks, u)
    requires Placed(s)
    ensures Transfers(s, s')
  {
    SameOpen(s.core.open, s'.core.open);
    forall hid: nat ensures Held(s'.tasks, t, hid) <==> Held(s.tasks, t, hid) {
    }
    assert Transfer(s, s', t);
  }

  lemma BorrowTransfers(s: State, id: Id, token: nat, now: int)
    requires Placed(s) && Enabled(s, Borrow(id, token, now))
    ensures Transfers(s, AfterBorrow(s, id, token, now))
  {
    NothingMoves(s, AfterBorrow(s, id, token, now), 0);
  }

  /** Task `t` takes the handles of `queue` out of `open`. */
  lemma TakesOut(s: State, s': State, t: nat, queue: seq<Handle>)
    requires OpenIsAlive(s) && Placed(s) && HandlesOf(s.tasks, t) == [] && HandlesOf(s'.tasks, t) == queue
    requires forall u: nat | u != t :: HandlesOf(s'.tasks, u) == HandlesOf(s.tasks, u)
    requires s'.shut == s.shut && s'.nextHid == s.nextHid
    requires forall h | h in queue :: exists id :: id in s.core.open && s.core.open[id].hid == h.hid
    requires forall id | id in s.core.open :: (id in s'.core.open && s'.core.open[id].hid == s.core.open[id].hid)
                                             || exists h :: h in queue && h.hid == s.core.open[id].hid
    requires Single(queue)
    ensures Transfers(s, s')
  {
    forall hid: nat | IsOpen(s.core.open, hid) ensures IsOpen(s'.core.open, hid) || Held(s'.tasks, t, hid) {
      var id :| id in s.core.open && s.core.open[id].hid == hid;
      if h :| h in queue && h.hid == hid {
        assert h in HandlesOf(s'.tasks, t);
      } else {
        assert id in s'.core.open;
      }
    }
    assert Transfer(s, s', t);
  }

  lemma StartColdTransfers(s: State, id: Id, t: nat, victim: Option<Id>)
    requires OpenIsAlive(s) && Placed(s) && Enabled(s, StartCold(id, t, victim))
    ensures Transfers(s, AfterStart(s, id, t, victim))
  {
    var s' := AfterStart(s, id, t, victim);
    if victim.Some? {
      var h := s.core.open[victim.value];
      assert h in HandlesOf(s'.tasks, t);
      TakesOut(s, s', t, [h]);
    } else {
      NothingMoves(s, s', t);
    }
  }

  lemma ListedIsSingle(s: State, ids: set<Id>, queue: seq<Handle>)
    requires OpenIsAlive(s) && Lists(s.core.open, ids, queue)
    ensures Single(queue)
  {
    forall i, j | 0 <= i < j < |queue| ensures queue[i].hid != queue[j].hid {
      assert queue[i] in queue && queue[j] in queue;
      assert s.core.open[queue[i].spec.id] == queue[i] && s.core.open[queue[j].spec.id] == queue[j];
    }
  }

  /** `open` loses the handles of `ids`, which task `t` now holds as `queue`. */
  lemma ListedTransfer(s: State, s': State, t: nat, ids: set<Id>, queue: seq<Handle>)
    requires OpenIsAlive(s) && Placed(s) && Lists(s.core.open, ids, queue)
    requires HandlesOf(s.tasks, t) == [] && HandlesOf(s'.tasks, t) == queue
    requires forall u: nat | u != t :: HandlesOf(s'.tasks, u) == HandlesOf(s.tasks, u)
    requires s'.shut == s.shut && s'.nextHid == s.nextHid
    requires forall id | id in s.core.open && id !in ids :: id in s'.core.open && s'.core.open[id] == s.core.open[id]
    ensures Transfers(s, s')
  {
    ListedIsSingle(s, ids, queue);
    forall id | id in s.core.open
      ensures (id in s'.core.open && s'.core.open[id].hid == s.core.open[id].hid)
           || exists h :: h in queue && h.hid == s.core.open[id].hid {
      if id in ids {
        assert s.core.open[id] in queue;
      }
    }
    TakesOut(s, s', t, queue);
  }

  lemma ReloadTransfers(s: State, t: nat, cfg: Config, indexing: set<Id>, queue: seq<Handle>)
    requires OpenIsAlive(s) && Reservations(s) && Placed(s) && Enabled(s, Reload(t, cfg, indexing, queue))
    ensures Transfers(s, AfterSwap(s, t, cfg, queue))
  {
    ListedTransfer(s, AfterSwap(s, t, cfg, queue), t, Changed(s.core.cfg, cfg), queue);
  }

  lemma DetachLeaves(c: Core)
    ensures forall id | id in c.open && id !in IdleIds(c.open) :: id in IdleDetached(c).open && IdleDetached(c).open[id] == c.open[id]
  {
  }

  lemma DetachTransfers(s: State, t: nat, queue: seq<Handle>)
    requires OpenIsAlive(s) && Reservations(s) && Placed(s) && t in s.tasks && s.tasks[t].CloseWaiting?
    requires Lists(s.core.open, IdleIds(s.core.open), queue)
    ensures Transfers(s, AfterDetach(s, t, queue))
  {
    PutTask(s.tasks, t, AfterDetach(s, t, queue).tasks[t]);
    DetachLeaves(s.core);
    ListedTransfer(s, AfterDetach(s, t, queue), t, IdleIds(s.core.open), queue);
  }

  lemma ReleaseTransfers(s: State, token: nat, t: nat, now: int)
    requires RefsExact(s) && OpenIsAlive(s) && Placed(s) && Enabled(s, Release(token, t, now))
    ensures Transfers(s, AfterRelease(s, token, t, now))
  {
    ReleaseFindsItsHandle(s, token);
    var s' := AfterRelease(s, token, t, now);
    var id := s.borrows[token];
    if ReleaseDiscards(s.core, id) {
      var h := s.core.open[id].(refs := 0, lastUsed := now);
      assert HandlesOf(s'.tasks, t) == [h] && h in [h];
      TakesOut(s, s', t, [h]);
    } else {
      NothingMoves(s, s', t);
    }
  }

  lemma FinishTransfers(s: State, t: nat, ok: bool, token: nat, spec: Spec, now: int)
    requires Placed(s) && t in s.tasks && s.tasks[t].Initing? && s.tasks[t].id !in s.core.open
    ensures Transfers(s, AfterFinish(s, t, ok, token, spec, now))
  {
    var s' := AfterFinish(s, t, ok, token, spec, now);
    PutTask(s.tasks, t, Discarding(Handle(s.nextHid, spec, 0, now)));
    if ok && s.core.closing {
      NewIsHeld(s, s', t, Handle(s.nextHid, spec, 0, now));
    } else if ok {
      NewIsOpen(s, s', t, s.tasks[t].id, Handle(s.nextHid, spec, 1, now));
    } else {
      NothingMoves(s, s', t);
    }
  }

  lemma NewIsHeld(s: State, s': State, t: nat, h: Handle)
    requires Placed(s) && HandlesOf(s.tasks, t) == [] && HandlesOf(s'.tasks, t) == [h] && h.hid == s.nextHid
    requires forall u: nat | u != t :: HandlesOf(s'.tasks, u) == HandlesOf(s.tasks, u)
    requires s'.core.open == s.core.open && s'.shut == s.shut && s'.nextHid == s.nextHid + 1
    ensures Transfers(s, s')
  {
    assert h in HandlesOf(s'.tasks, t);
    assert Held(s'.tasks, t, s.nextHid);
    assert Transfer(s, s', t);
  }

  lemma NewIsOpen(s: State, s': State, t: nat, id: Id, h: Handle)
    requires Placed(s) && HandlesOf(s.tasks, t) == [] && id !in s.core.open && h.hid == s.nextHid
    requires forall u: nat :: HandlesOf(s'.tasks, u) == HandlesOf(s.tasks, u)
    requires s'.core.open == s.core.open[id := h] && s'.shut == s.shut && s'.nextHid == s.nextHid + 1
    ensures Transfers(s, s')
  {
    forall hid: nat | IsOpen(s.core.open, hid) ensures IsOpen(s'.core.open, hid) {
      var i :| i in s.core.open && s.core.open[i].hid == hid;
      assert i in s'.core.open && s'.core.open[i].hid == hid;
    }
    assert id in s'.core.open && s'.core.open[id].hid == s.nextHid;
    assert Transfer(s, s', t);
  }

  /** Task `t` closes the first of its handles, or goes on with the same ones. */
  lemma ClosesFirst(s: State, s': State, t: nat, h: Handle, rest: seq<Handle>)
    requires Placed(s) && HandlesOf(s.tasks, t) == [h] + rest && HandlesOf(s'.tasks, t) == rest
    requires forall u: nat | u != t :: HandlesOf(s'.tasks, u) == HandlesOf(s.tasks, u)
    requires s'.core.open == s.core.open && s'.shut == s.shut + {h.hid} && s'.nextHid == s.nextHid
    ensures Transfers(s, s')
  {
    var all := HandlesOf(s.tasks, t);
    assert all[0] == h && all[1..] == rest && h in all;
    forall x | x in rest ensures x.hid != h.hid && x in all {
      var i :| 0 <= i < |rest| && rest[i] == x;
      assert all[i + 1] == x;
    }
    forall hid: nat | Held(s.tasks, t, hid) ensures Held(s'.tasks, t, hid) || hid in s'.shut {
      var x :| x in all && x.hid == hid;
      if x != h {
        assert x in rest;
      }
    }
    forall i, j | 0 <= i < j < |rest| ensures rest[i].hid != rest[j].hid {
      assert rest[i] == all[i + 1] && rest[j] == all[j + 1];
    }
    assert Transfer(s, s', t);
  }

  lemma DiscardTransfers(s: State, t: nat)
    requires Placed(s) && Enabled(s, DiscardStep(t))
    ensures Transfers(s, AfterDiscard(s, t))
  {
    var s' := AfterDiscard(s, t);
    match s.tasks[t]
    case Evicting(_, h) => NothingMoves(s, s', t);
    case EvictClosing(_, h) => assert [h] + [] == [h]; ClosesFirst(s, s', t, h, []);
    case EvictDrained(_) => NothingMoves(s, s', t);
    case Discarding(h) => assert [h] + [] == [h]; ClosesFirst(s, s', t, h, []);
  }

  lemma ReloadStepTransfers(s: State, t: nat)
    requires Placed(s) && Enabled(s, ReloadStep(t))
    ensures Transfers(s, AfterReload(s, t))
  {
    var s' := AfterReload(s, t);
    match s.tasks[t]
    case Reloading(_, queue) =>
      assert queue != [] ==> [queue[0]] + queue[1..] == queue;
      NothingMoves(s, s', t);
    case ReloadClosing(_, h, queue) => ClosesFirst(s, s', t, h, queue);
    case ReloadDrained(_, _) => NothingMoves(s, s', t);
  }

  lemma CloseStepTransfers(s: State, t: nat)
    requires Placed(s) && Enabled(s, CloseStep(t))
    ensures Transfers(s, AfterClose(s, t))
  {
    var CloseClosing(queue, skip) := s.tasks[t];
    if queue != [] {
      assert [queue[0]] + queue[1..] == queue;
      ClosesFirst(s, AfterClose(s, t), t, queue[0], queue[1..]);
    } else {
      NothingMoves(s, AfterClose(s, t), t);
    }
  }

  lemma DrainTransfers(s: State, t: nat)
    requires Placed(s) && Enabled(s, Drain(t))
    ensures Transfers(s, AfterDrain(s, t))
  {
    NothingMoves(s, AfterDrain(s, t), t);
  }

  lemma CloseStartTransfers(s: State, t: nat)
    requires Placed(s) && Enabled(s, CloseStart(t))
    ensures Transfers(s, AfterCloseStart(s, t))
  {
    NothingMoves(s, AfterCloseStart(s, t), t);
  }

  lemma StepTransfers(s: State, e: Step)
    requires Inv(s) && Placed(s) && Enabled(s, e)
    ensures Transfers(s, Apply(s, e))
  {
    match e
    case Borrow(id, token, now) => BorrowTransfers(s, id, token, now);
    case StartCold(id, t, victim) => StartColdTransfers(s, id, t, victim);
    case DiscardStep(t) => DiscardTransfers(s, t);
    case FinishCold(t, ok, token, spec, now) => ColdIsReserved(s, t); FinishTransfers(s, t, ok, token, spec, now);
    case Release(token, t, now) => ReleaseTransfers(s, token, t, now);
    case Drain(t) => DrainTransfers(s, t);
    case Reload(t, cfg, indexing, queue) => ReloadTransfers(s, t, cfg, indexing, queue);
    case ReloadStep(t) => ReloadStepTransfers(s, t);
    case CloseStart(t) => CloseStartTransfers(s, t);
    case CloseDetach(t, queue) => DetachTransfers(s, t, queue);
    case CloseStep(t) => CloseStepTransfers(s, t);
  }

  lemma StepKeepsPlaced(s: State, e: Step)
    requires Inv(s) && Placed(s) && Enabled(s, e)
    ensures Placed(Apply(s, e))
  {
    StepTransfers(s, e);
    var t: nat :| Transfer(s, Apply(s, e), t);
    TransferKeeps(s, Apply(s, e), t);
  }

  // --- every run --------------------------------------------------------------------------------

  /** Conservation: in every reachable state each handle ever made is open, held by one task,
      once, or closed. */
  lemma {:induction false} HandlesArePlaced(r: Run)
    requires Legal(r)
    ensures Placed(End(r))
  {
    if r.Then? {
      HandlesArePlaced(r.before);
      Reachable(r.before);
      StepKeepsPlaced(End(r.before), r.e);
    }
  }

  /** A handle that a step closes was not closed before: none is closed twice. */
  lemma ClosedAtMostOnce(r: Run, hid: nat)
    requires Legal(r) && r.Then? && hid in End(r).shut && hid !in End(r.before).shut
    ensures exists t: nat :: Held(End(r.before).tasks, t, hid) && !Held(End(r).tasks, t, hid)
    ensures hid in End(r).shut && forall t: nat :: !Held(End(r).tasks, t, hid)
  {
    HandlesArePlaced(r);
    HandlesArePlaced(r.before);
    Reachable(r.before);
    StepTransfers(End(r.before), r.e);
    var t: nat :| Transfer(End(r.before), End(r), t);
  }
}
