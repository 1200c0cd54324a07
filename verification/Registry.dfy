/**
 The workspace registry object. Each method is one critical section of the registry
 mutex; its contract gives the new state as a function of the old one, and
 `RegistryProtocol` interleaves exactly those functions.
 */
module Registry {
  import opened Options
  import opened RegistryModel
  import opened RegistryProtocol

  datatype BorrowOutcome =
    | EmptyId
    | Closing
    | Unknown
    | Lent(hid: nat)
    | Wait
    | Full
    | Cold(victim: Option<Handle>)

  lemma ListsGrow(open: map<Id, Handle>, ids: set<Id>, queue: seq<Handle>, id: Id)
    requires Lists(open, ids, queue) && id !in ids && forall i | i in open :: open[i].spec.id == i
    ensures Lists(open, ids + {id}, if id in open then queue + [open[id]] else queue)
  {
  }

  lemma DetachIsAStep(s: State, t: nat, queue: seq<Handle>, c: Core, skip: bool)
    requires t in s.tasks && s.tasks[t].CloseWaiting? && Lists(s.core.open, IdleIds(s.core.open), queue)
    requires c == IdleDetached(s.core) && (skip <==> c.open != map[] || c.opening != map[] || c.discards > 0)
    ensures var e := RegistryProtocol.CloseDetach(t, queue);
            Enabled(s, e) && Apply(s, e).core == c && Apply(s, e).tasks[t] == CloseClosing(queue, skip)
  {
  }

  /** Everything but the description agrees. */
  predicate SameCollection(a: Spec, b: Spec) {
    && a.id == b.id && a.root == b.root && a.indexDir == b.indexDir && a.configPath == b.configPath
    && a.digest == b.digest && a.fromProjectsDir == b.fromProjectsDir
  }

  class WorkspaceRegistry {
    var cfg: Config
    var open: map<Id, Handle>
    var opening: map<Id, RegistryModel.Wait>
    var closing: bool
    var discards: int
    var runtimeShutdownDone: bool

    ghost function Core(): Core
      reads this
    {
      RegistryModel.Core(cfg, open, opening, closing, discards, runtimeShutdownDone)
    }

    constructor (cfg: Config)
      ensures Core() == Init(cfg).core
    {
      this.cfg, open, opening, closing, discards, runtimeShutdownDone := cfg, map[], map[], false, 0, false;
    }

    /** Takes the least recently used idle workspace out, if there is one. */
    method EvictOldestIdleLocked() returns (victim: Option<Handle>, ghost id: Option<Id>)
      modifies this`open
      ensures IsOldestIdle(old(open), id)
      ensures id.None? ==> victim.None? && open == old(open)
      ensures id.Some? ==> victim == Some(old(open)[id.value]) && open == old(open) - {id.value}
    {
      var oldest: Option<Id> := None;
      var todo := open.Keys;
      while todo != {}
        invariant todo <= open.Keys
        invariant oldest.None? ==> forall i | i in open && i !in todo :: open[i].refs > 0
        invariant oldest.Some? ==> Idle(open, oldest.value)
        invariant oldest.Some? ==>
          forall i | i !in todo && Idle(open, i) :: open[oldest.value].lastUsed <= open[i].lastUsed
        decreases todo
      {
        var i :| i in todo;
        todo := todo - {i};
        if open[i].refs == 0 && (oldest.None? || open[i].lastUsed < open[oldest.value].lastUsed) {
          oldest := Some(i);
        }
      }
      id := oldest;
      if oldest.None? {
        victim := None;
      } else {
        victim := Some(open[oldest.value]);
        open := open - {oldest.value};
      }
    }

    /** Reserves an id that is neither open nor being opened; at the limit it takes the place of
        an idle workspace, if there is one. */
    method ReserveOpenSlot(id: Id, task: nat) returns (r: BorrowOutcome, ghost victim: Option<Id>)
      modifies this`open, this`opening
      ensures var full := |old(open)| + |old(opening)| >= old(cfg).maxOpen;
        && (r.Full? <==> full && forall i | i in old(open) :: old(open)[i].refs > 0)
        && (r.Cold? <==> !r.Full?) && (r.Cold? ==> victim.Some? == full)
      ensures r.Full? ==> open == old(open) && opening == old(opening)
      ensures r.Cold? ==> opening == old(opening)[id := ColdOpen(task)]
      ensures r.Cold? && victim.None? ==> r.victim.None? && open == old(open)
      ensures r.Cold? && victim.Some? ==>
        IsOldestIdle(old(open), victim) && r.victim == Some(old(open)[victim.value]) && open == old(open) - {victim.value}
    {
      var evicted: Option<Handle> := None;
      victim := None;
      if |open| + |opening| >= cfg.maxOpen {
        evicted, victim := EvictOldestIdleLocked();
        if evicted.None? {
          assert forall i | i in old(open) :: old(open)[i].refs == 0 ==> Idle(old(open), i);
          return Full, None;
        }
      }
      opening := opening[id := ColdOpen(task)];
      r := Cold(evicted);
    }

    /** BorrowService up to its first unlock. */
    method BorrowEnter(id: Id, task: nat, now: int) returns (r: BorrowOutcome, ghost victim: Option<Id>)
      modifies this
      ensures r.EmptyId? <==> id == ""
      ensures r.Closing? <==> id != "" && old(closing)
      ensures r.Unknown? <==> id != "" && !old(closing) && id !in old(cfg).workspaces
      ensures r.Lent? <==> old(Admits(id)) && id in old(open)
      ensures r.Wait? <==> old(Admits(id)) && id !in old(open) && id in old(opening)
      ensures r.Full? <==> old(Admits(id)) && id !in old(open) && id !in old(opening) && old(AllInUse())
      ensures r.Cold? <==> old(Admits(id)) && id !in old(open) && id !in old(opening) && !old(AllInUse())
      ensures r.Lent? ==>
        && r.hid == old(open)[id].hid && Core() == Borrowed(old(Core()), id, now)
        && open == old(open)[id := old(open)[id].(refs := old(open)[id].refs + 1, lastUsed := now)] && opening == old(opening)
      ensures r.Cold? ==>
        && Core() == Reserve(old(Core()), id, task, victim) && opening == old(opening)[id := ColdOpen(task)]
        && (victim.Some? <==> |old(open)| + |old(opening)| >= old(cfg).maxOpen)
      ensures r.Cold? && victim.None? ==> r.victim.None? && open == old(open)
      ensures r.Cold? && victim.Some? ==>
        IsOldestIdle(old(open), victim) && r.victim == Some(old(open)[victim.value]) && open == old(open) - {victim.value}
      ensures !r.Lent? && !r.Cold? ==> Core() == old(Core())
      ensures r.Lent? ==> forall s: State, token: nat | s.core == old(Core()) && token !in s.borrows ::
        Enabled(s, Borrow(id, token, now)) && Apply(s, Borrow(id, token, now)).core == Core()
      ensures r.Cold? ==> forall s: State | s.core == old(Core()) && task !in s.tasks ::
        Enabled(s, StartCold(id, task, victim)) && Apply(s, StartCold(id, task, victim)).core == Core()
    {
      victim := None;
      if id == "" {
        return EmptyId, None;
      }
      if closing {
        return Closing, None;
      }
      if id !in cfg.workspaces {
        return Unknown, None;
      }
      if id in open {
        var h := open[id];
        open := open[id := h.(refs := h.refs + 1, lastUsed := now)];
        return Lent(h.hid), None;
      }
      if id in opening {
        return Wait, None;
      }
      r, victim := ReserveOpenSlot(id, task);
    }

    predicate Admits(id: Id)
      reads this
    {
      id != "" && !closing && id in cfg.workspaces
    }

    /** At the limit, with nothing idle. */
    ghost predicate AllInUse()
      reads this
    {
      |open| + |opening| >= cfg.maxOpen && forall i | i in open :: open[i].refs > 0
    }

    /** BorrowService after workspace init; `h` is None when init failed. A registry
        that began closing meanwhile refuses the borrow and discards the handle. */
    method FinishColdOpen(id: Id, h: Option<Handle>, now: int) returns (granted: bool, discard: bool)
      requires id in opening && id !in open && (h.Some? ==> h.value.refs == 0)
      modifies this
      ensures granted <==> h.Some? && !old(closing)
      ensures discard <==> h.Some? && old(closing)
      ensures Core() == FinishOpen(old(Core()), id,
        if h.Some? && !old(closing) then Some(h.value.(refs := 1, lastUsed := now)) else h)
      ensures opening == old(opening) - {id}
      ensures open == if granted then old(open)[id := h.value.(refs := 1, lastUsed := now)] else old(open)
      ensures discards == if discard then old(discards) + 1 else old(discards)
      ensures forall s: State, t: nat, token: nat |
        s.core == old(Core()) && t in s.tasks && s.tasks[t] == Initing(id) && token !in s.borrows &&
        (h.Some? ==> h.value.spec.id == id && h.value.hid == s.nextHid && (old(closing) ==> h.value.lastUsed == now)) ::
        var e := FinishCold(t, h.Some?, token, if h.Some? then h.value.spec else Spec(id, "", "", "", "", false, ""), now);
        Enabled(s, e) && Apply(s, e).core == Core()
    {
      opening := opening - {id};
      granted, discard := false, false;
      if closing {
        if h.Some? {
          discards := discards + 1;
          discard := true;
        }
        return;
      }
      if h.None? {
        return;
      }
      open := open[id := h.value];
      open := open[id := h.value.(refs := h.value.refs + 1, lastUsed := now)];
      granted := true;
    }

    /** The release callback for handle `hid`; `discard` hands it over for closing. */
    method Release(id: Id, hid: nat, now: int) returns (discard: bool)
      modifies this
      ensures id in old(open) && old(open)[id].hid == hid && old(open)[id].refs > 0 ==>
        && Core() == Released(old(Core()), id, now) && (discard <==> old(closing) && old(open)[id].refs == 1)
        && (discard ==> open == old(open) - {id} && discards == old(discards) + 1)
        && (!discard ==> discards == old(discards) && open == old(open)[id := old(open)[id].(refs := old(open)[id].refs - 1,
              lastUsed := if old(open)[id].refs == 1 then now else old(open)[id].lastUsed)])
      ensures !(id in old(open) && old(open)[id].hid == hid && old(open)[id].refs > 0) ==>
        Core() == old(Core()) && !discard
      ensures forall s: State, token: nat, t: nat |
        s.core == old(Core()) && token in s.borrows && s.borrows[token] == id && token in s.lent && s.lent[token] == hid && t !in s.tasks ::
        Enabled(s, RegistryProtocol.Release(token, t, now)) && Apply(s, RegistryProtocol.Release(token, t, now)).core == Core()
    {
      discard := false;
      if id !in open || open[id].hid != hid {
        return;
      }
      var h := open[id];
      if h.refs <= 0 {
        return;
      }
      h := h.(refs := h.refs - 1);
      if h.refs == 0 {
        h := h.(lastUsed := now);
        if closing {
          open := open - {id};
          discards := discards + 1;
          return true;
        }
      }
      open := open[id := h];
    }

    method BeginDiscard()
      modifies this`discards
      ensures Core() == Discards(old(Core()), 1) && discards == old(discards) + 1
      ensures forall s: State, t: nat | s.core == old(Core()) && t in s.tasks && s.tasks[t].Evicting? ::
        Enabled(s, DiscardStep(t)) && Apply(s, DiscardStep(t)).core == Core()
    {
      discards := discards + 1;
    }

    method EndDiscard()
      modifies this`discards
      ensures Core() == Discards(old(Core()), -1) && discards == old(discards) - 1
      ensures forall s: State, t: nat | s.core == old(Core()) && t in s.tasks && (s.tasks[t].EvictClosing? || s.tasks[t].Discarding?) ::
        Enabled(s, DiscardStep(t)) && Apply(s, DiscardStep(t)).core == Core()
    {
      discards := discards - 1;
    }

    method TryShutdownRuntimeAfterDrain() returns (shutdown: bool)
      modifies this`runtimeShutdownDone
      ensures shutdown == Drained(old(Core())) && Core() == ShutDownIfDrained(old(Core()))
      ensures shutdown <==> closing && !old(runtimeShutdownDone) && open == map[] && opening == map[] && discards == 0
      ensures runtimeShutdownDone <==> old(runtimeShutdownDone) || shutdown
      ensures forall s: State, t: nat | s.core == old(Core()) && t in s.tasks && s.tasks[t].Draining? ::
        Enabled(s, Drain(t)) && Apply(s, Drain(t)).core == Core() && Apply(s, Drain(t)).downs == s.downs + if shutdown then 1 else 0
    {
      if !closing || runtimeShutdownDone || |open| != 0 || |opening| != 0 || discards != 0 {
        return false;
      }
      runtimeShutdownDone := true;
      return true;
    }

    /** Why a collection's root must not change now, if there is a reason. */
    method CollectionIdle(id: Id, indexing: set<Id>) returns (closed: bool, busy: bool)
      ensures closed == closing
      ensures !closing ==> (busy <==> Busy(Core(), {id}, indexing) != {})
      ensures busy <==> !closing && (id in opening || (id in open && (open[id].refs > 0 || id in indexing)))
    {
      assert Busy(Core(), {id}, indexing) == {} <==> id !in Busy(Core(), {id}, indexing);
      closed, busy := closing, false;
      if closing {
        return;
      }
      if id in opening {
        busy := true;
      } else if id in open {
        busy := open[id].refs > 0 || id in indexing;
      }
    }

    method ChangedIds(newCfg: Config) returns (changed: set<Id>)
      ensures changed == Changed(cfg, newCfg)
      ensures forall id :: id in changed <==>
        id in cfg.workspaces && !(id in newCfg.workspaces && SameCollection(cfg.workspaces[id], newCfg.workspaces[id]))
    {
      changed := {};
      var todo := cfg.workspaces.Keys;
      while todo != {}
        invariant todo <= cfg.workspaces.Keys
        invariant forall i :: i in changed <==> i in Changed(cfg, newCfg) && i !in todo
        decreases todo
      {
        var i :| i in todo;
        todo := todo - {i};
        if i !in newCfg.workspaces || !SpecsEqual(cfg.workspaces[i], newCfg.workspaces[i]) {
          changed := changed + {i};
        }
      }
    }

    /** Applies a new snapshot, or refuses it whole when a changed collection is in use. */
    method ReloadApply(newCfg: Config, indexing: set<Id>, task: nat)
      returns (refused: bool, busy: set<Id>, toClose: seq<Handle>)
      requires forall id | id in open :: open[id].spec.id == id
      modifies this
      ensures busy == Busy(old(Core()), Changed(old(cfg), newCfg), indexing) || old(closing)
      ensures refused <==> old(closing) || busy != {}
      ensures refused ==> Core() == old(Core())
      ensures !refused ==>
        && Core() == Reloaded(old(Core()), newCfg, task)
        && cfg == newCfg && open == old(open) - Changed(old(cfg), newCfg)
        && opening == old(opening) + (map id | id in Changed(old(cfg), newCfg) :: Reserved(task))
        && Lists(old(open), Changed(old(cfg), newCfg), toClose)
      ensures !refused ==> forall s: State |
        s.core == old(Core()) && task !in s.tasks && (forall u | u in s.tasks :: !s.tasks[u].Reload()) ::
        var e := RegistryProtocol.Reload(task, newCfg, indexing, toClose);
        Enabled(s, e) && Apply(s, e).core == Core()
    {
      toClose, busy := [], {};
      if closing {
        return true, {}, [];
      }
      var changed := ChangedIds(newCfg);
      busy := BusyIds(changed, indexing);
      if busy != {} {
        return true, busy, [];
      }
      NotBusyMeansIdle(Core(), changed, indexing);
      refused := false;
      toClose := DetachChanged(changed, task);
      cfg := newCfg;
    }

    /** Takes the handles of `changed` out and reserves every one of those ids. */
    method DetachChanged(changed: set<Id>, task: nat) returns (toClose: seq<Handle>)
      requires forall id | id in open :: open[id].spec.id == id
      modifies this`open, this`opening
      ensures open == old(open) - changed
      ensures opening == old(opening) + map id | id in changed :: Reserved(task)
      ensures Lists(old(open), changed, toClose)
    {
      toClose := [];
      ghost var was, wasOpening := open, opening;
      ghost var done: set<Id> := {};
      var todo := changed;
      while todo != {}
        invariant done == changed - todo && todo <= changed
        invariant Shrunk(was, open) && open.Keys == was.Keys - done
        invariant opening.Keys == wasOpening.Keys + done
        invariant forall i | i in opening :: opening[i] == if i in done then Reserved(task) else wasOpening[i]
        invariant Lists(was, done, toClose)
        decreases todo
      {
        var i :| i in todo;
        todo := todo - {i};
        ListsGrow(was, done, toClose, i);
        assert i !in done && (i in open <==> i in was);
        done := done + {i};
        if i in open {
          toClose := toClose + [open[i]];
          open := open - {i};
        }
        opening := opening[i := Reserved(task)];
      }
      MergedReservations(wasOpening, opening, changed, task);
    }

    static lemma MergedReservations(before: map<Id, Wait>, after: map<Id, Wait>, ids: set<Id>, task: nat)
      requires after.Keys == before.Keys + ids
      requires forall i | i in after :: after[i] == if i in ids then Reserved(task) else before[i]
      ensures after == before + map id | id in ids :: Reserved(task)
    {
    }

    method BusyIds(changed: set<Id>, indexing: set<Id>) returns (busy: set<Id>)
      ensures busy == Busy(Core(), changed, indexing)
      ensures forall id :: id in busy <==> id in changed && (id in opening || (id in open && (open[id].refs > 0 || id in indexing)))
    {
      busy := {};
      var todo := changed;
      while todo != {}
        invariant todo <= changed
        invariant forall i :: i in busy <==> i in Busy(Core(), changed, indexing) && i !in todo
        decreases todo
      {
        var i :| i in todo;
        todo := todo - {i};
        if i in opening || (i in open && (open[i].refs > 0 || i in indexing)) {
          busy := busy + {i};
        }
      }
    }

    /** Ends the reservations of a reload, but only those still its own. */
    method ReloadRelease(ids: set<Id>, task: nat)
      modifies this`opening
      ensures Core() == ReservationsReleased(old(Core()), ids, task)
      ensures forall id :: id in opening <==> id in old(opening) && !(id in ids && old(opening)[id] == Reserved(task))
      ensures forall id | id in opening :: opening[id] == old(opening)[id]
      ensures forall s: State | s.core == old(Core()) && task in s.tasks && s.tasks[task] == Reloading(ids, []) ::
        Enabled(s, ReloadStep(task)) && Apply(s, ReloadStep(task)).core == Core()
    {
      opening := map id | id in opening && !(id in ids && opening[id] == Reserved(task)) :: opening[id];
    }

    method CloseBegin() returns (first: bool)
      modifies this`closing
      ensures first == !old(closing) && closing && Core() == old(Core()).(closing := true)
      ensures first ==> forall s: State, t: nat | s.core == old(Core()) && t !in s.tasks ::
        Enabled(s, CloseStart(t)) && Apply(s, CloseStart(t)).core == Core()
    {
      first := !closing;
      closing := true;
    }

    /** Close, after its wait: takes out idle workspaces, skips borrowed ones. */
    method CloseDetach() returns (toClose: seq<Handle>, skipRuntime: bool)
      requires forall id | id in open :: open[id].spec.id == id
      modifies this`open
      ensures Core() == IdleDetached(old(Core())) && Lists(old(open), IdleIds(old(open)), toClose)
      ensures forall id :: id in open <==> id in old(open) && old(open)[id].refs > 0
      ensures forall id | id in open :: open[id] == old(open)[id]
      ensures forall s: State, t: nat | s.core == old(Core()) && t in s.tasks && s.tasks[t].CloseWaiting? ::
        var e := RegistryProtocol.CloseDetach(t, toClose);
        Enabled(s, e) && Apply(s, e).core == Core() && Apply(s, e).tasks[t] == CloseClosing(toClose, skipRuntime)
      ensures skipRuntime <==> open != map[] || opening != map[] || discards > 0
    {
      toClose := DetachIdle();
      assert open == IdleDetached(old(Core())).open;
      skipRuntime := |open| > 0 || |opening| > 0 || discards > 0;
      forall s: State, t: nat | s.core == old(Core()) && t in s.tasks && s.tasks[t].CloseWaiting?
        ensures var e := RegistryProtocol.CloseDetach(t, toClose);
                Enabled(s, e) && Apply(s, e).core == Core() && Apply(s, e).tasks[t] == CloseClosing(toClose, skipRuntime) {
        DetachIsAStep(s, t, toClose, Core(), skipRuntime);
      }
    }

    method DetachIdle() returns (toClose: seq<Handle>)
      requires forall id | id in open :: open[id].spec.id == id
      modifies this`open
      ensures Shrunk(old(open), open) && open.Keys == old(open).Keys - IdleIds(old(open))
      ensures Lists(old(open), IdleIds(old(open)), toClose)
    {
      toClose := [];
      ghost var was := open;
      ghost var gone: set<Id> := {};
      var todo := open.Keys;
      while todo != {}
        invariant todo <= open.Keys && gone !! todo
        invariant Shrunk(was, open) && open.Keys == was.Keys - gone
        invariant forall i | i in was :: i in gone <==> i !in todo && was[i].refs == 0
        invariant gone <= was.Keys
        invariant Lists(was, gone, toClose)
        decreases todo
      {
        var i :| i in todo;
        todo := todo - {i};
        if open[i].refs == 0 {
          ListsGrow(was, gone, toClose, i);
          toClose := toClose + [open[i]];
          open := open - {i};
          gone := gone + {i};
        }
      }
      assert gone == IdleIds(was);
    }
  }
}
