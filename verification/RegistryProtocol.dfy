/**
 Every interleaving of borrow, release, eviction, reload and close.

 A step is one critical section of one goroutine. `tasks` holds what each
 goroutine still has to do outside the mutex, with the handles it took out.
 */
module RegistryProtocol {
  import opened Options
  import opened RegistryModel

  datatype Task =
    | Evicting(id: Id, h: Handle)                                      // victim taken out, not yet counted
    | EvictClosing(id: Id, h: Handle)                                  // victim being closed
    | EvictDrained(id: Id)                                             // victim closed, drain check pending
    | Initing(id: Id)                                                  // the new workspace is being built
    | Discarding(h: Handle)                                            // a handle being closed after its last use
    | Draining                                                         // drain check pending
    | Reloading(ids: set<Id>, queue: seq<Handle>)                      // handles left to close
    | ReloadClosing(ids: set<Id>, h: Handle, queue: seq<Handle>)
    | ReloadDrained(ids: set<Id>, queue: seq<Handle>)
    | CloseWaiting                                                     // Close waits for the drain
    | CloseClosing(queue: seq<Handle>, skip: bool)                     // Close closes what it took out
  {
    predicate Cold() { Evicting? || EvictClosing? || EvictDrained? || Initing? }
    predicate Reload() { Reloading? || ReloadClosing? || ReloadDrained? }
    predicate Counted() { EvictClosing? || Discarding? || ReloadClosing? }

    /** The handles this task has taken out of the registry and not finished closing. */
    function Handles(): seq<Handle> {
      match this
      case Evicting(_, h) => [h]
      case EvictClosing(_, h) => [h]
      case Discarding(h) => [h]
      case Reloading(_, queue) => queue
      case ReloadClosing(_, h, queue) => [h] + queue
      case ReloadDrained(_, queue) => queue
      case CloseClosing(queue, _) => queue
      case _ => []
    }
  }

  /** `borrows` maps each release callback not yet called to the workspace it is for;
      `shut` are the handles whose close has returned; `downs` counts how often the
      native runtime was shut down. */
  datatype State = State(
    core: Core,
    tasks: map<nat, Task>,
    borrows: map<nat, Id>,
    lent: map<nat, nat>,
    shut: set<nat>,
    nextHid: nat,
    downs: nat)

  /** `DiscardStep`, `ReloadStep` and `CloseStep` move a task to its next state. */
  datatype Step =
    | Borrow(id: Id, token: nat, now: int)
    | StartCold(id: Id, task: nat, victim: Option<Id>)
    | DiscardStep(task: nat)
    | FinishCold(task: nat, ok: bool, token: nat, spec: Spec, now: int)
    | Release(token: nat, task: nat, now: int)
    | Drain(task: nat)
    | Reload(task: nat, cfg: Config, indexing: set<Id>, queue: seq<Handle>)
    | ReloadStep(task: nat)
    | CloseStart(task: nat)
    | CloseDetach(task: nat, queue: seq<Handle>)
    | CloseStep(task: nat)

  function Init(cfg: Config): State {
    State(Core(cfg, map[], map[], false, 0, false), map[], map[], map[], {}, 0, 0)
  }

  /** `queue` lists exactly the open handles of `ids`, each once. */
  ghost predicate Lists(open: map<Id, Handle>, ids: set<Id>, queue: seq<Handle>) {
    && (forall h | h in queue :: h.spec.id in ids && h.spec.id in open && open[h.spec.id] == h)
    && (forall id | id in ids && id in open :: open[id] in queue)
    && (forall i, j | 0 <= i < j < |queue| :: queue[i] != queue[j])
  }

  function IdleIds(open: map<Id, Handle>): set<Id> {
    set id | id in open && open[id].refs == 0
  }

  ghost predicate Enabled(s: State, e: Step) {
    var c := s.core;
    match e
    case Borrow(id, token, _) => !c.closing && id in c.cfg.workspaces && id in c.open && token !in s.borrows
    case StartCold(id, t, victim) =>
      && !c.closing && id in c.cfg.workspaces && id !in c.open && id !in c.opening && t !in s.tasks
      && (if |c.open| + |c.opening| >= c.cfg.maxOpen
          then victim.Some? && IsOldestIdle(c.open, victim)
          else victim.None?)
    case DiscardStep(t) =>
      t in s.tasks && (s.tasks[t].Evicting? || s.tasks[t].EvictClosing? || s.tasks[t].EvictDrained? || s.tasks[t].Discarding?)
    case FinishCold(t, _, token, spec, _) =>
      t in s.tasks && s.tasks[t].Initing? && spec.id == s.tasks[t].id && token !in s.borrows
    case Release(token, t, _) => token in s.borrows && token in s.lent && t !in s.tasks
    case Drain(t) => t in s.tasks && s.tasks[t].Draining?
    case Reload(t, cfg, indexing, queue) =>
      && !c.closing && t !in s.tasks && (forall u | u in s.tasks :: !s.tasks[u].Reload())
      && Busy(c, Changed(c.cfg, cfg), indexing) == {}
      && Lists(c.open, Changed(c.cfg, cfg), queue)
    case ReloadStep(t) => t in s.tasks && s.tasks[t].Reload()
    case CloseStart(t) => !c.closing && t !in s.tasks
    case CloseDetach(t, queue) =>
      t in s.tasks && s.tasks[t].CloseWaiting? && Lists(c.open, IdleIds(c.open), queue)
    case CloseStep(t) => t in s.tasks && s.tasks[t].CloseClosing?
  }

  /** The drain check: shuts the native runtime down when everything is gone. */
  function Check(s: State): State {
    s.(core := ShutDownIfDrained(s.core), downs := s.downs + if Drained(s.core) then 1 else 0)
  }

  ghost function AfterBorrow(s: State, id: Id, token: nat, now: int): State
    requires id in s.core.open
  {
    s.(core := Borrowed(s.core, id, now), borrows := s.borrows[token := id], lent := s.lent[token := s.core.open[id].hid])
  }

  ghost function AfterStart(s: State, id: Id, t: nat, victim: Option<Id>): State
    requires victim.Some? ==> victim.value in s.core.open
  {
    var task := if victim.Some? then Evicting(id, s.core.open[victim.value]) else Initing(id);
    s.(core := Reserve(s.core, id, t, victim), tasks := s.tasks[t := task])
  }

  ghost function AfterDrain(s: State, t: nat): State {
    Check(s).(tasks := s.tasks - {t})
  }

  ghost function AfterSwap(s: State, t: nat, cfg: Config, queue: seq<Handle>): State {
    s.(core := Reloaded(s.core, cfg, t), tasks := s.tasks[t := Reloading(Changed(s.core.cfg, cfg), queue)])
  }

  ghost function AfterCloseStart(s: State, t: nat): State {
    s.(core := s.core.(closing := true), tasks := s.tasks[t := CloseWaiting])
  }

  ghost function AfterFinish(s: State, t: nat, ok: bool, token: nat, spec: Spec, now: int): State
    requires t in s.tasks && s.tasks[t].Initing?
  {
    var c, id := s.core, s.tasks[t].id;
    var h := Handle(s.nextHid, spec, if c.closing then 0 else 1, now);
    if !ok then
      s.(core := FinishOpen(c, id, None), tasks := s.tasks - {t})
    else if c.closing then
      s.(core := FinishOpen(c, id, Some(h)), nextHid := s.nextHid + 1, tasks := s.tasks[t := Discarding(h)])
    else
      s.(core := FinishOpen(c, id, Some(h)), nextHid := s.nextHid + 1, tasks := s.tasks - {t},
         borrows := s.borrows[token := id], lent := s.lent[token := h.hid])
  }

  /** A release does nothing when its handle is no longer the open one. */
  ghost function AfterRelease(s: State, token: nat, t: nat, now: int): State
    requires token in s.borrows && token in s.lent
  {
    var c, id := s.core, s.borrows[token];
    var s1 := s.(borrows := s.borrows - {token}, lent := s.lent - {token});
    if id !in c.open || c.open[id].hid != s.lent[token] || c.open[id].refs == 0 then s1
    else if ReleaseDiscards(c, id) then
      s1.(core := Released(c, id, now), tasks := s.tasks[t := Discarding(c.open[id].(refs := 0, lastUsed := now))])
    else s1.(core := Released(c, id, now))
  }

  /** The victim of an eviction, or a handle after its last use, is closed. */
  ghost function AfterDiscard(s: State, t: nat): State
    requires t in s.tasks && (s.tasks[t].Evicting? || s.tasks[t].EvictClosing? || s.tasks[t].EvictDrained? || s.tasks[t].Discarding?)
  {
    var c, task := s.core, s.tasks[t];
    match task
    case Evicting(id, h) => s.(core := Discards(c, 1), tasks := s.tasks[t := EvictClosing(id, h)])
    case EvictClosing(id, h) =>
      s.(core := Discards(c, -1), shut := s.shut + {h.hid}, tasks := s.tasks[t := EvictDrained(id)])
    case EvictDrained(id) => Check(s).(tasks := s.tasks[t := Initing(id)])
    case Discarding(h) =>
      s.(core := Discards(c, -1), shut := s.shut + {h.hid}, tasks := s.tasks[t := Draining])
  }

  ghost function AfterReload(s: State, t: nat): State
    requires t in s.tasks && s.tasks[t].Reload()
  {
    var c, task := s.core, s.tasks[t];
    match task
    case Reloading(ids, queue) =>
      if queue == [] then s.(core := ReservationsReleased(c, ids, t), tasks := s.tasks - {t})
      else s.(core := Discards(c, 1), tasks := s.tasks[t := ReloadClosing(ids, queue[0], queue[1..])])
    case ReloadClosing(ids, h, queue) =>
      s.(core := Discards(c, -1), shut := s.shut + {h.hid}, tasks := s.tasks[t := ReloadDrained(ids, queue)])
    case ReloadDrained(ids, queue) => Check(s).(tasks := s.tasks[t := Reloading(ids, queue)])
  }

  ghost function AfterDetach(s: State, t: nat, queue: seq<Handle>): State {
    var c1 := IdleDetached(s.core);
    var skip := c1.open != map[] || c1.opening != map[] || c1.discards > 0;
    s.(core := c1, tasks := s.tasks[t := CloseClosing(queue, skip)])
  }

  ghost function AfterClose(s: State, t: nat): State
    requires t in s.tasks && s.tasks[t].CloseClosing?
  {
    var CloseClosing(queue, skip) := s.tasks[t];
    if queue != [] then s.(shut := s.shut + {queue[0].hid}, tasks := s.tasks[t := CloseClosing(queue[1..], skip)])
    else if skip then s.(tasks := s.tasks - {t})
    else s.(tasks := s.tasks[t := Draining])
  }

  ghost function Apply(s: State, e: Step): State
    requires Enabled(s, e)
  {
    match e
    case Borrow(id, token, now) => AfterBorrow(s, id, token, now)
    case StartCold(id, t, victim) => AfterStart(s, id, t, victim)
    case DiscardStep(t) => AfterDiscard(s, t)
    case FinishCold(t, ok, token, spec, now) => AfterFinish(s, t, ok, token, spec, now)
    case Release(token, t, now) => AfterRelease(s, token, t, now)
    case Drain(t) => AfterDrain(s, t)
    case Reload(t, cfg, _, queue) => AfterSwap(s, t, cfg, queue)
    case ReloadStep(t) => AfterReload(s, t)
    case CloseStart(t) => AfterCloseStart(s, t)
    case CloseDetach(t, queue) => AfterDetach(s, t, queue)
    case CloseStep(t) => AfterClose(s, t)
  }

  // --- the invariant ---------------------------------------------------------

  ghost function Tokens(borrows: map<nat, Id>, id: Id): set<nat> {
    set token | token in borrows && borrows[token] == id
  }

  /** Reference counts are exact, and a borrowed workspace is open. */
  ghost predicate RefsExact(s: State) {
    && s.lent.Keys == s.borrows.Keys
    && (forall id | id in s.core.open :: s.core.open[id].refs == |Tokens(s.borrows, id)|)
    && (forall token | token in s.borrows ::
          s.borrows[token] in s.core.open && s.core.open[s.borrows[token]].hid == s.lent[token])
  }

  /** What a task reserves in `opening`. */
  datatype Role = ColdFor(id: Id) | ReloadFor(ids: set<Id>) | Other
  {
    predicate Claims(i: Id) {
      match this
      case ColdFor(id) => i == id
      case ReloadFor(ids) => i in ids
      case Other => false
    }

    function Wait(t: nat): Wait { if ColdFor? then ColdOpen(t) else Reserved(t) }
  }

  function RoleAt(tasks: map<nat, Task>, t: nat): Role {
    if t !in tasks then Other
    else if tasks[t].Cold() then ColdFor(tasks[t].id)
    else if tasks[t].Reload() then ReloadFor(tasks[t].ids)
    else Other
  }

  /** `open` and `opening` are disjoint, and `opening` is exactly what the tasks reserve. */
  ghost predicate Reservations(s: State) {
    && s.core.open.Keys !! s.core.opening.Keys
    && (forall id | id in s.core.open :: s.core.open[id].spec.id == id)
    && (forall id | id in s.core.opening ::
          var w := s.core.opening[id];
          RoleAt(s.tasks, w.task).Claims(id) && w == RoleAt(s.tasks, w.task).Wait(w.task))
    && (forall t, id | RoleAt(s.tasks, t).Claims(id) ::
          id in s.core.opening && s.core.opening[id] == RoleAt(s.tasks, t).Wait(t))
  }

  /** A reload only holds handles of ids it keeps reserved. */
  ghost predicate ReloadsOwn(s: State) {
    forall t | t in s.tasks && s.tasks[t].Reload() ::
      forall h | h in s.tasks[t].Handles() :: h.spec.id in s.tasks[t].ids
  }

  ghost predicate NotOpen(open: map<Id, Handle>, hid: nat) {
    forall id | id in open :: open[id].hid != hid
  }

  /** An open handle is not being closed by anyone and has not been closed. */
  ghost predicate OpenIsAlive(s: State) {
    && (forall id | id in s.core.open :: s.core.open[id].hid < s.nextHid)
    && (forall id, id' | id in s.core.open && id' in s.core.open && id != id' :: s.core.open[id].hid != s.core.open[id'].hid)
    && (forall hid | hid in s.shut :: hid < s.nextHid && NotOpen(s.core.open, hid))
    && (forall t | t in s.tasks :: HandlesGone(s.core.open, s.nextHid, s.tasks[t]))
  }

  ghost predicate HandlesGone(open: map<Id, Handle>, nextHid: nat, task: Task) {
    forall h | h in task.Handles() :: h.hid < nextHid && NotOpen(open, h.hid)
  }

  ghost function CountedTasks(tasks: map<nat, Task>): set<nat> {
    set t | t in tasks && tasks[t].Counted()
  }

  ghost predicate DiscardsExact(s: State) {
    s.core.discards == |CountedTasks(s.tasks)|
  }

  /** Once the runtime is down, nothing is left and nothing can come back. */
  ghost predicate DownIsFinal(s: State) {
    && s.downs == (if s.core.down then 1 else 0)
    && (s.core.down ==> s.core.closing && s.core.open == map[] && s.core.opening == map[] && s.core.discards == 0)
  }

  ghost predicate Inv(s: State) {
    RefsExact(s) && Reservations(s) && ReloadsOwn(s) && OpenIsAlive(s) && DiscardsExact(s) && DownIsFinal(s)
  }

  // --- what keeps each part --------------------------------------------------

  /** `open` lost some entries and changed no other. */
  ghost predicate Shrunk(before: map<Id, Handle>, after: map<Id, Handle>) {
    forall id | id in after :: id in before && after[id] == before[id]
  }

  lemma RefsKept(s: State, s': State)
    requires RefsExact(s) && Shrunk(s.core.open, s'.core.open)
    requires s'.borrows == s.borrows && s'.lent == s.lent
    requires forall id | id in s.core.open && s.core.open[id].refs > 0 :: id in s'.core.open
    ensures RefsExact(s')
  {
    forall token | token in s'.borrows ensures s'.borrows[token] in s'.core.open {
      assert token in Tokens(s.borrows, s.borrows[token]);
    }
  }

  lemma ReservationsKept(s: State, s': State)
    requires Reservations(s) && s'.core.opening == s.core.opening
    requires s'.core.open.Keys <= s.core.open.Keys
    requires forall id | id in s'.core.open :: s'.core.open[id].spec == s.core.open[id].spec
    requires forall t :: RoleAt(s'.tasks, t) == RoleAt(s.tasks, t)
    ensures Reservations(s')
  {
  }

  lemma ReloadsOwnKept(s: State, s': State, t: nat)
    requires ReloadsOwn(s)
    requires forall u | u in s'.tasks && u != t :: u in s.tasks && s'.tasks[u] == s.tasks[u]
    requires t in s'.tasks && s'.tasks[t].Reload() ==>
      forall h | h in s'.tasks[t].Handles() :: h.spec.id in s'.tasks[t].ids
    ensures ReloadsOwn(s')
  {
  }

  /** The handle was open in `s` and is not in `s'`. */
  ghost predicate TakenOut(s: State, s': State, h: Handle) {
    exists id :: id in s.core.open && id !in s'.core.open && s.core.open[id].hid == h.hid
  }

  /** Handles leave `open` into task `t`, or stay where they are. */
  lemma AliveKept(s: State, s': State, t: nat)
    requires OpenIsAlive(s) && s'.nextHid == s.nextHid
    requires forall id | id in s'.core.open :: id in s.core.open && s'.core.open[id].hid == s.core.open[id].hid
    requires forall u | u in s'.tasks && u != t :: u in s.tasks && s'.tasks[u] == s.tasks[u]
    requires t in s'.tasks ==> forall h | h in s'.tasks[t].Handles() ::
      (t in s.tasks && h in s.tasks[t].Handles()) || TakenOut(s, s', h)
    requires forall hid | hid in s'.shut ::
      hid in s.shut || (t in s.tasks && exists h | h in s.tasks[t].Handles() :: h.hid == hid)
    ensures OpenIsAlive(s')
  {
    forall hid | NotOpen(s.core.open, hid) ensures NotOpen(s'.core.open, hid) {}
    forall u | u in s'.tasks ensures HandlesGone(s'.core.open, s'.nextHid, s'.tasks[u]) {
      if u != t {
        assert HandlesGone(s.core.open, s.nextHid, s.tasks[u]);
      } else if t in s.tasks {
        assert HandlesGone(s.core.open, s.nextHid, s.tasks[t]);
      }
    }
    forall hid | hid in s'.shut ensures hid < s'.nextHid && NotOpen(s'.core.open, hid) {
      if hid !in s.shut {
        assert HandlesGone(s.core.open, s.nextHid, s.tasks[t]);
      }
    }
  }

  function One(b: bool): nat { if b then 1 else 0 }

  lemma SizeWithout(a: set<nat>, t: nat)
    ensures |a| == |a - {t}| + One(t in a)
  {
    if t in a {
      assert a == (a - {t}) + {t};
    } else {
      assert a - {t} == a;
    }
  }

  lemma CountPut(tasks: map<nat, Task>, t: nat, task: Task)
    ensures |CountedTasks(tasks[t := task])| ==
            |CountedTasks(tasks)| - One(t in tasks && tasks[t].Counted()) + One(task.Counted())
  {
    var a, b := CountedTasks(tasks), CountedTasks(tasks[t := task]);
    assert a - {t} == b - {t};
    SizeWithout(a, t);
    SizeWithout(b, t);
  }

  lemma CountDrop(tasks: map<nat, Task>, t: nat)
    requires t in tasks && !tasks[t].Counted()
    ensures CountedTasks(tasks - {t}) == CountedTasks(tasks)
  {
  }

  // --- each step keeps each part ---------------------------------------------

  lemma ColdIsReserved(s: State, t: nat)
    requires Reservations(s) && t in s.tasks && s.tasks[t].Cold()
    ensures s.tasks[t].id in s.core.opening && s.core.opening[s.tasks[t].id] == ColdOpen(t)
    ensures s.tasks[t].id !in s.core.open
  {
    assert RoleAt(s.tasks, t).Claims(s.tasks[t].id);
  }

  lemma ReloadIsReserved(s: State, t: nat, h: Handle)
    requires Reservations(s) && ReloadsOwn(s) && t in s.tasks && s.tasks[t].Reload() && h in s.tasks[t].Handles()
    ensures h.spec.id in s.core.opening && s.core.opening[h.spec.id] == Reserved(t)
  {
    assert RoleAt(s.tasks, t).Claims(h.spec.id);
  }

  lemma CountedMeansDiscards(s: State, t: nat)
    requires DiscardsExact(s) && t in s.tasks && s.tasks[t].Counted()
    ensures s.core.discards > 0
  {
    assert t in CountedTasks(s.tasks);
  }

  lemma BorrowKeepsRefs(s: State, id: Id, token: nat, now: int)
    requires RefsExact(s) && id in s.core.open && token !in s.borrows
    ensures RefsExact(AfterBorrow(s, id, token, now))
  {
    var s' := AfterBorrow(s, id, token, now);
    assert Tokens(s'.borrows, id) == Tokens(s.borrows, id) + {token};
    forall other | other != id ensures Tokens(s'.borrows, other) == Tokens(s.borrows, other) {}
  }

  lemma BorrowKeepsPlace(s: State, id: Id, token: nat, now: int)
    requires Reservations(s) && OpenIsAlive(s) && id in s.core.open
    ensures Reservations(AfterBorrow(s, id, token, now)) && OpenIsAlive(AfterBorrow(s, id, token, now))
  {
    var s' := AfterBorrow(s, id, token, now);
    ReservationsKept(s, s');
    AliveKept(s, s', 0);
  }

  lemma BorrowKeeps(s: State, id: Id, token: nat, now: int)
    requires Inv(s) && Enabled(s, Borrow(id, token, now))
    ensures Inv(AfterBorrow(s, id, token, now))
  {
    BorrowKeepsRefs(s, id, token, now);
    BorrowKeepsPlace(s, id, token, now);
  }

  lemma StartColdKeepsReservations(s: State, id: Id, t: nat, victim: Option<Id>)
    requires Reservations(s) && id !in s.core.open && id !in s.core.opening && t !in s.tasks
    requires victim.Some? ==> victim.value in s.core.open
    ensures Reservations(AfterStart(s, id, t, victim))
  {
    var s' := AfterStart(s, id, t, victim);
    forall u ensures RoleAt(s'.tasks, u) == if u == t then ColdFor(id) else RoleAt(s.tasks, u) {}
    forall i | i in s'.core.opening
      ensures RoleAt(s'.tasks, s'.core.opening[i].task).Claims(i)
      ensures s'.core.opening[i] == RoleAt(s'.tasks, s'.core.opening[i].task).Wait(s'.core.opening[i].task)
    {
      if i != id {
        assert RoleAt(s.tasks, s.core.opening[i].task).Claims(i);
      }
    }
  }

  lemma StartColdKeepsAlive(s: State, id: Id, t: nat, victim: Option<Id>)
    requires OpenIsAlive(s) && t !in s.tasks
    requires victim.Some? ==> victim.value in s.core.open
    ensures OpenIsAlive(AfterStart(s, id, t, victim))
  {
    AliveKept(s, AfterStart(s, id, t, victim), t);
  }

  lemma StartColdKeeps(s: State, id: Id, t: nat, victim: Option<Id>)
    requires Inv(s) && Enabled(s, StartCold(id, t, victim))
    ensures Inv(AfterStart(s, id, t, victim))
  {
    StartColdKeepsRefs(s, id, t, victim);
    StartColdKeepsReservations(s, id, t, victim);
    StartColdKeepsAlive(s, id, t, victim);
    StartColdKeepsReloads(s, id, t, victim);
    StartColdKeepsCounts(s, id, t, victim);
  }

  lemma StartColdKeepsRefs(s: State, id: Id, t: nat, victim: Option<Id>)
    requires RefsExact(s) && Enabled(s, StartCold(id, t, victim))
    ensures RefsExact(AfterStart(s, id, t, victim))
  {
    RefsKept(s, AfterStart(s, id, t, victim));
  }

  lemma StartColdKeepsReloads(s: State, id: Id, t: nat, victim: Option<Id>)
    requires ReloadsOwn(s) && Enabled(s, StartCold(id, t, victim))
    ensures ReloadsOwn(AfterStart(s, id, t, victim))
  {
    ReloadsOwnKept(s, AfterStart(s, id, t, victim), t);
  }

  lemma StartColdKeepsCounts(s: State, id: Id, t: nat, victim: Option<Id>)
    requires DiscardsExact(s) && DownIsFinal(s) && Enabled(s, StartCold(id, t, victim))
    ensures DiscardsExact(AfterStart(s, id, t, victim)) && DownIsFinal(AfterStart(s, id, t, victim))
  {
    CountPut(s.tasks, t, AfterStart(s, id, t, victim).tasks[t]);
  }

  /** A task moves on without touching `open`, `opening` or the borrows. */
  ghost predicate Moves(s: State, s': State, t: nat) {
    && s'.core.open == s.core.open && s'.core.opening == s.core.opening
    && s'.borrows == s.borrows && s'.lent == s.lent && s'.nextHid == s.nextHid
    && RoleAt(s'.tasks, t) == RoleAt(s.tasks, t)
    && t in s.tasks
    && (forall u | u != t :: (u in s'.tasks <==> u in s.tasks) && (u in s'.tasks ==> s'.tasks[u] == s.tasks[u]))
    && (t in s'.tasks ==> forall h | h in s'.tasks[t].Handles() :: h in s.tasks[t].Handles())
    && (forall hid | hid in s'.shut :: hid in s.shut || exists h | h in s.tasks[t].Handles() :: h.hid == hid)
  }

  lemma MovesKeeps(s: State, s': State, t: nat)
    requires RefsExact(s) && Reservations(s) && ReloadsOwn(s) && OpenIsAlive(s) && Moves(s, s', t)
    ensures RefsExact(s') && Reservations(s') && ReloadsOwn(s') && OpenIsAlive(s')
  {
    forall u ensures RoleAt(s'.tasks, u) == RoleAt(s.tasks, u) {}
    RefsKept(s, s');
    ReservationsKept(s, s');
    ReloadsOwnMoved(s, s', t);
    AliveKept(s, s', t);
  }

  lemma ReloadsOwnMoved(s: State, s': State, t: nat)
    requires ReloadsOwn(s) && Moves(s, s', t)
    ensures ReloadsOwn(s')
  {
    if t in s'.tasks && s'.tasks[t].Reload() {
      assert RoleAt(s'.tasks, t) == ReloadFor(s'.tasks[t].ids);
      assert s.tasks[t].Reload() && s.tasks[t].ids == s'.tasks[t].ids;
    }
    ReloadsOwnKept(s, s', t);
  }

  lemma DiscardMoves(s: State, t: nat)
    requires Enabled(s, DiscardStep(t))
    ensures Moves(s, AfterDiscard(s, t), t)
  {
  }

  lemma DiscardStepKeeps(s: State, t: nat)
    requires Inv(s) && Enabled(s, DiscardStep(t))
    ensures Inv(AfterDiscard(s, t))
  {
    var s' := AfterDiscard(s, t);
    DiscardMoves(s, t);
    MovesKeeps(s, s', t);
    CountPut(s.tasks, t, s'.tasks[t]);
    DiscardKeepsDown(s, t);
  }

  lemma DiscardKeepsDown(s: State, t: nat)
    requires Reservations(s) && DiscardsExact(s) && DownIsFinal(s) && Enabled(s, DiscardStep(t))
    ensures DownIsFinal(AfterDiscard(s, t))
  {
    if s.tasks[t].Counted() { CountedMeansDiscards(s, t); } else { ColdIsReserved(s, t); }
  }

  lemma DrainKeeps(s: State, t: nat)
    requires Inv(s) && Enabled(s, Drain(t))
    ensures Inv(AfterDrain(s, t))
  {
    var s' := AfterDrain(s, t);
    MovesKeeps(s, s', t);
    CountDrop(s.tasks, t);
  }

  lemma CloseMoves(s: State, t: nat)
    requires Enabled(s, CloseStep(t))
    ensures Moves(s, AfterClose(s, t), t)
  {
    if s.tasks[t].queue != [] {
      assert s.tasks[t].queue[0] in s.tasks[t].Handles();
    }
  }

  lemma CloseStepKeeps(s: State, t: nat)
    requires Inv(s) && Enabled(s, CloseStep(t))
    ensures Inv(AfterClose(s, t))
  {
    var s' := AfterClose(s, t);
    CloseMoves(s, t);
    MovesKeeps(s, s', t);
    if t in s'.tasks { CountPut(s.tasks, t, s'.tasks[t]); } else { CountDrop(s.tasks, t); }
  }

  lemma CloseStartKeeps(s: State, t: nat)
    requires Inv(s) && Enabled(s, CloseStart(t))
    ensures Inv(AfterCloseStart(s, t))
  {
    var s' := AfterCloseStart(s, t);
    forall u ensures RoleAt(s'.tasks, u) == RoleAt(s.tasks, u) {}
    RefsKept(s, s');
    ReservationsKept(s, s');
    ReloadsOwnKept(s, s', t);
    AliveKept(s, s', t);
    CloseStartKeepsCounts(s, t);
  }

  lemma CloseStartKeepsCounts(s: State, t: nat)
    requires DiscardsExact(s) && DownIsFinal(s) && Enabled(s, CloseStart(t))
    ensures DiscardsExact(AfterCloseStart(s, t)) && DownIsFinal(AfterCloseStart(s, t))
  {
    CountPut(s.tasks, t, CloseWaiting);
  }

  lemma DetachTakesOut(s: State, t: nat, queue: seq<Handle>)
    requires Enabled(s, CloseDetach(t, queue))
    ensures forall h | h in queue :: TakenOut(s, AfterDetach(s, t, queue), h)
  {
    var s' := AfterDetach(s, t, queue);
    forall h | h in queue ensures TakenOut(s, s', h) {
      assert h.spec.id in s.core.open && h.spec.id !in s'.core.open;
    }
  }

  lemma DetachKeepsAlive(s: State, t: nat, queue: seq<Handle>)
    requires OpenIsAlive(s) && Enabled(s, CloseDetach(t, queue))
    ensures OpenIsAlive(AfterDetach(s, t, queue))
  {
    DetachTakesOut(s, t, queue);
    DetachShrinks(s.core);
    AliveKept(s, AfterDetach(s, t, queue), t);
  }

  lemma DetachShrinks(c: Core)
    ensures Shrunk(c.open, IdleDetached(c).open)
  {
  }

  lemma DetachKeepsReservations(s: State, t: nat, queue: seq<Handle>)
    requires Reservations(s) && t in s.tasks && s.tasks[t].CloseWaiting?
    ensures Reservations(AfterDetach(s, t, queue))
  {
    var s' := AfterDetach(s, t, queue);
    forall u ensures RoleAt(s'.tasks, u) == RoleAt(s.tasks, u) {}
    ReservationsKept(s, s');
  }

  lemma DetachKeeps(s: State, t: nat, queue: seq<Handle>)
    requires Inv(s) && Enabled(s, CloseDetach(t, queue))
    ensures Inv(AfterDetach(s, t, queue))
  {
    var s' := AfterDetach(s, t, queue);
    RefsKept(s, s');
    DetachKeepsReservations(s, t, queue);
    ReloadsOwnKept(s, s', t);
    DetachKeepsAlive(s, t, queue);
    CountPut(s.tasks, t, s'.tasks[t]);
  }

  lemma FinishKeepsReservations(s: State, t: nat, ok: bool, token: nat, spec: Spec, now: int)
    requires Reservations(s) && t in s.tasks && s.tasks[t].Initing? && spec.id == s.tasks[t].id
    ensures Reservations(AfterFinish(s, t, ok, token, spec, now))
  {
    var s' := AfterFinish(s, t, ok, token, spec, now);
    ColdIsReserved(s, t);
    FinishRoles(s, t, ok, token, spec, now);
    FinishOpens(s, t, ok, token, spec, now);
    ClaimsDropped(s, s', t);
  }

  lemma FinishRoles(s: State, t: nat, ok: bool, token: nat, spec: Spec, now: int)
    requires t in s.tasks && s.tasks[t].Initing?
    ensures forall u :: RoleAt(AfterFinish(s, t, ok, token, spec, now).tasks, u) == if u == t then Other else RoleAt(s.tasks, u)
  {
  }

  lemma FinishOpens(s: State, t: nat, ok: bool, token: nat, spec: Spec, now: int)
    requires Reservations(s) && t in s.tasks && s.tasks[t].Initing? && spec.id == s.tasks[t].id
    ensures var c := AfterFinish(s, t, ok, token, spec, now).core;
            && c.open.Keys !! c.opening.Keys && (forall id | id in c.open :: c.open[id].spec.id == id)
            && c.opening.Keys == s.core.opening.Keys - {s.tasks[t].id}
            && forall id | id in c.opening :: c.opening[id] == s.core.opening[id]
  {
  }

  lemma OneClaimant(s: State, t: nat, u: nat, id: Id)
    requires Reservations(s) && RoleAt(s.tasks, t).Claims(id) && RoleAt(s.tasks, u).Claims(id)
    ensures t == u
  {
    assert s.core.opening[id] == RoleAt(s.tasks, t).Wait(t);
    assert s.core.opening[id] == RoleAt(s.tasks, u).Wait(u);
  }

  /** A task that reserved exactly the ids that `opening` loses is done. */
  lemma ClaimsDropped(s: State, s': State, t: nat)
    requires Reservations(s) && forall u :: RoleAt(s'.tasks, u) == if u == t then Other else RoleAt(s.tasks, u)
    requires s'.core.open.Keys !! s'.core.opening.Keys && forall id | id in s'.core.open :: s'.core.open[id].spec.id == id
    requires forall id | id in s'.core.opening :: id in s.core.opening && s'.core.opening[id] == s.core.opening[id]
    requires forall id | id in s.core.opening :: id in s'.core.opening <==> !RoleAt(s.tasks, t).Claims(id)
    ensures Reservations(s')
  {
    forall i | i in s'.core.opening ensures s.core.opening[i].task != t {
      assert RoleAt(s.tasks, s.core.opening[i].task).Claims(i);
    }
    forall u, id | RoleAt(s'.tasks, u).Claims(id)
      ensures id in s'.core.opening && s'.core.opening[id] == RoleAt(s'.tasks, u).Wait(u)
    {
      assert u != t && RoleAt(s.tasks, u).Claims(id);
      if RoleAt(s.tasks, t).Claims(id) {
        OneClaimant(s, t, u, id);
      }
    }
  }

  lemma FinishKeepsRefs(s: State, t: nat, ok: bool, token: nat, spec: Spec, now: int)
    requires RefsExact(s) && t in s.tasks && s.tasks[t].Initing? && token !in s.borrows
    requires s.tasks[t].id !in s.core.open
    ensures RefsExact(AfterFinish(s, t, ok, token, spec, now))
  {
    var s' := AfterFinish(s, t, ok, token, spec, now);
    var id := s.tasks[t].id;
    if ok && !s.core.closing {
      assert Tokens(s.borrows, id) == {};
      assert Tokens(s'.borrows, id) == {token};
      forall other | other != id ensures Tokens(s'.borrows, other) == Tokens(s.borrows, other) {}
    } else {
      RefsKept(s, s');
    }
  }

  lemma FinishKeepsAlive(s: State, t: nat, ok: bool, token: nat, spec: Spec, now: int)
    requires OpenIsAlive(s) && t in s.tasks && s.tasks[t].Initing?
    ensures OpenIsAlive(AfterFinish(s, t, ok, token, spec, now))
  {
    var s' := AfterFinish(s, t, ok, token, spec, now);
    forall hid: nat | hid < s.nextHid && NotOpen(s.core.open, hid) ensures NotOpen(s'.core.open, hid) {}
    forall u | u in s'.tasks ensures HandlesGone(s'.core.open, s'.nextHid, s'.tasks[u]) {
      if u != t {
        assert HandlesGone(s.core.open, s.nextHid, s.tasks[u]);
      }
    }
  }

  lemma FinishKeepsRest(s: State, t: nat, ok: bool, token: nat, spec: Spec, now: int)
    requires ReloadsOwn(s) && DiscardsExact(s) && DownIsFinal(s) && t in s.tasks && s.tasks[t].Initing?
    requires s.tasks[t].id in s.core.opening
    ensures ReloadsOwn(AfterFinish(s, t, ok, token, spec, now))
    ensures DiscardsExact(AfterFinish(s, t, ok, token, spec, now)) && DownIsFinal(AfterFinish(s, t, ok, token, spec, now))
  {
    var s' := AfterFinish(s, t, ok, token, spec, now);
    ReloadsOwnKept(s, s', t);
    if t in s'.tasks { CountPut(s.tasks, t, s'.tasks[t]); } else { CountDrop(s.tasks, t); }
  }

  lemma FinishKeeps(s: State, t: nat, ok: bool, token: nat, spec: Spec, now: int)
    requires Inv(s) && Enabled(s, FinishCold(t, ok, token, spec, now))
    ensures Inv(AfterFinish(s, t, ok, token, spec, now))
  {
    var s' := AfterFinish(s, t, ok, token, spec, now);
    ColdIsReserved(s, t);
    FinishKeepsRefs(s, t, ok, token, spec, now);
    FinishKeepsReservations(s, t, ok, token, spec, now);
    FinishKeepsAlive(s, t, ok, token, spec, now);
    FinishKeepsRest(s, t, ok, token, spec, now);
  }

  /** The release callback always finds its own handle, with a positive count. */
  lemma ReleaseFindsItsHandle(s: State, token: nat)
    requires RefsExact(s) && token in s.borrows
    ensures s.borrows[token] in s.core.open && token in s.lent
    ensures s.core.open[s.borrows[token]].hid == s.lent[token] && s.core.open[s.borrows[token]].refs > 0
  {
    assert token in Tokens(s.borrows, s.borrows[token]);
  }

  lemma ReleaseKeepsRefs(s: State, token: nat, t: nat, now: int)
    requires RefsExact(s) && token in s.borrows
    ensures RefsExact(AfterRelease(s, token, t, now))
  {
    ReleaseFindsItsHandle(s, token);
    var s' := AfterRelease(s, token, t, now);
    var id := s.borrows[token];
    SizeWithout(Tokens(s.borrows, id), token);
    assert Tokens(s'.borrows, id) == Tokens(s.borrows, id) - {token};
    forall other | other != id ensures Tokens(s'.borrows, other) == Tokens(s.borrows, other) {}
    OtherBorrowsStayOpen(s, token, t, now);
  }

  lemma OtherBorrowsStayOpen(s: State, token: nat, t: nat, now: int)
    requires RefsExact(s) && token in s.borrows && token in s.lent
    requires |Tokens(s.borrows - {token}, s.borrows[token])| == |Tokens(s.borrows, s.borrows[token])| - 1
    ensures var s' := AfterRelease(s, token, t, now);
            forall k | k in s'.borrows :: s'.borrows[k] in s'.core.open && s'.core.open[s'.borrows[k]].hid == s'.lent[k]
  {
    var s' := AfterRelease(s, token, t, now);
    forall k | k in s'.borrows ensures s'.borrows[k] in s'.core.open && s'.core.open[s'.borrows[k]].hid == s'.lent[k] {
      assert k in Tokens(s'.borrows, s.borrows[k]);
    }
  }

  lemma ReleaseKeepsAlive(s: State, token: nat, t: nat, now: int)
    requires OpenIsAlive(s) && token in s.borrows && token in s.lent && t !in s.tasks
    ensures OpenIsAlive(AfterRelease(s, token, t, now))
  {
    AliveKept(s, AfterRelease(s, token, t, now), t);
  }

  lemma ReleaseKeepsReservations(s: State, token: nat, t: nat, now: int)
    requires Reservations(s) && ReloadsOwn(s) && token in s.borrows && token in s.lent && t !in s.tasks
    ensures Reservations(AfterRelease(s, token, t, now)) && ReloadsOwn(AfterRelease(s, token, t, now))
  {
    var s' := AfterRelease(s, token, t, now);
    forall u ensures RoleAt(s'.tasks, u) == RoleAt(s.tasks, u) {}
    ReservationsKept(s, s');
    ReloadsOwnKept(s, s', t);
  }

  lemma ReleaseKeeps(s: State, token: nat, t: nat, now: int)
    requires Inv(s) && Enabled(s, Release(token, t, now))
    ensures Inv(AfterRelease(s, token, t, now))
  {
    var s' := AfterRelease(s, token, t, now);
    ReleaseFindsItsHandle(s, token);
    ReleaseKeepsRefs(s, token, t, now);
    ReleaseKeepsReservations(s, token, t, now);
    ReleaseKeepsAlive(s, token, t, now);
    ReleaseKeepsCounts(s, token, t, now);
  }

  lemma ReleaseKeepsCounts(s: State, token: nat, t: nat, now: int)
    requires DiscardsExact(s) && DownIsFinal(s) && Enabled(s, Release(token, t, now)) && token in s.lent
    ensures DiscardsExact(AfterRelease(s, token, t, now)) && DownIsFinal(AfterRelease(s, token, t, now))
  {
    var s' := AfterRelease(s, token, t, now);
    if t in s'.tasks { CountPut(s.tasks, t, s'.tasks[t]); }
  }

  lemma NotBusyMeansIdle(c: Core, ids: set<Id>, indexing: set<Id>)
    requires Busy(c, ids, indexing) == {}
    ensures forall id | id in ids :: id !in c.opening && (id in c.open ==> c.open[id].refs == 0 && id !in indexing)
  {
    forall id | id in ids ensures id !in c.opening && (id in c.open ==> c.open[id].refs == 0 && id !in indexing) {
      assert id !in Busy(c, ids, indexing);
    }
  }

  lemma ReloadKeepsReservations(s: State, t: nat, cfg: Config, queue: seq<Handle>)
    requires Reservations(s) && t !in s.tasks
    requires forall id | id in Changed(s.core.cfg, cfg) :: id !in s.core.opening
    ensures Reservations(AfterSwap(s, t, cfg, queue))
  {
    var s' := AfterSwap(s, t, cfg, queue);
    var ids := Changed(s.core.cfg, cfg);
    forall u ensures RoleAt(s'.tasks, u) == if u == t then ReloadFor(ids) else RoleAt(s.tasks, u) {}
    forall i | i in s'.core.opening
      ensures RoleAt(s'.tasks, s'.core.opening[i].task).Claims(i)
      ensures s'.core.opening[i] == RoleAt(s'.tasks, s'.core.opening[i].task).Wait(s'.core.opening[i].task)
    {
      if i !in ids {
        assert RoleAt(s.tasks, s.core.opening[i].task).Claims(i);
      }
    }
  }

  lemma ReloadKeepsAlive(s: State, t: nat, cfg: Config, queue: seq<Handle>)
    requires OpenIsAlive(s) && t !in s.tasks && Lists(s.core.open, Changed(s.core.cfg, cfg), queue)
    ensures OpenIsAlive(AfterSwap(s, t, cfg, queue))
  {
    var s' := AfterSwap(s, t, cfg, queue);
    forall h | h in queue ensures TakenOut(s, s', h) {
      assert h.spec.id in s.core.open && h.spec.id !in s'.core.open;
    }
    AliveKept(s, s', t);
  }

  lemma ReloadKeeps(s: State, t: nat, cfg: Config, indexing: set<Id>, queue: seq<Handle>)
    requires Inv(s) && Enabled(s, Reload(t, cfg, indexing, queue))
    ensures Inv(AfterSwap(s, t, cfg, queue))
  {
    var s' := AfterSwap(s, t, cfg, queue);
    NotBusyMeansIdle(s.core, Changed(s.core.cfg, cfg), indexing);
    RefsKept(s, s');
    ReloadKeepsReservations(s, t, cfg, queue);
    ReloadsOwnKept(s, s', t);
    ReloadKeepsAlive(s, t, cfg, queue);
    ReloadKeepsCounts(s, t, cfg, indexing, queue);
  }

  lemma ReloadKeepsCounts(s: State, t: nat, cfg: Config, indexing: set<Id>, queue: seq<Handle>)
    requires DiscardsExact(s) && DownIsFinal(s) && Enabled(s, Reload(t, cfg, indexing, queue))
    ensures DiscardsExact(AfterSwap(s, t, cfg, queue)) && DownIsFinal(AfterSwap(s, t, cfg, queue))
  {
    CountPut(s.tasks, t, AfterSwap(s, t, cfg, queue).tasks[t]);
  }

  lemma ReloadDoneKeepsReservations(s: State, t: nat)
    requires Reservations(s) && t in s.tasks && s.tasks[t].Reloading? && s.tasks[t].queue == []
    ensures Reservations(AfterReload(s, t))
  {
    var s' := AfterReload(s, t);
    forall u ensures RoleAt(s'.tasks, u) == if u == t then Other else RoleAt(s.tasks, u) {}
    forall i | i in s'.core.opening ensures s.core.opening[i].task != t {
      assert RoleAt(s.tasks, s.core.opening[i].task).Claims(i);
    }
  }

  lemma ReloadKeepsDown(s: State, t: nat)
    requires Reservations(s) && ReloadsOwn(s) && DiscardsExact(s) && DownIsFinal(s) && Enabled(s, ReloadStep(t))
    ensures DownIsFinal(AfterReload(s, t))
  {
    if s.tasks[t].Counted() {
      CountedMeansDiscards(s, t);
    } else if s.tasks[t].Handles() != [] {
      ReloadIsReserved(s, t, s.tasks[t].Handles()[0]);
    }
  }

  lemma ReloadMoves(s: State, t: nat)
    requires Enabled(s, ReloadStep(t)) && !(s.tasks[t].Reloading? && s.tasks[t].queue == [])
    ensures Moves(s, AfterReload(s, t), t)
  {
  }

  lemma ReloadDoneKeeps(s: State, t: nat)
    requires Inv(s) && t in s.tasks && s.tasks[t].Reloading? && s.tasks[t].queue == [] && DownIsFinal(AfterReload(s, t))
    ensures Inv(AfterReload(s, t))
  {
    var s' := AfterReload(s, t);
    RefsKept(s, s');
    ReloadDoneKeepsReservations(s, t);
    ReloadsOwnKept(s, s', t);
    AliveKept(s, s', t);
    CountDrop(s.tasks, t);
  }

  lemma ReloadMoveKeeps(s: State, t: nat)
    requires Inv(s) && Enabled(s, ReloadStep(t)) && !(s.tasks[t].Reloading? && s.tasks[t].queue == [])
    requires DownIsFinal(AfterReload(s, t))
    ensures Inv(AfterReload(s, t))
  {
    var s' := AfterReload(s, t);
    ReloadMoves(s, t);
    MovesKeeps(s, s', t);
    ReloadMoveKeepsCount(s, t);
  }

  lemma ReloadMoveKeepsCount(s: State, t: nat)
    requires DiscardsExact(s) && Enabled(s, ReloadStep(t)) && !(s.tasks[t].Reloading? && s.tasks[t].queue == [])
    ensures DiscardsExact(AfterReload(s, t))
  {
    CountPut(s.tasks, t, AfterReload(s, t).tasks[t]);
  }

  lemma ReloadStepKeeps(s: State, t: nat)
    requires Inv(s) && Enabled(s, ReloadStep(t))
    ensures Inv(AfterReload(s, t))
  {
    ReloadKeepsDown(s, t);
    if s.tasks[t].Reloading? && s.tasks[t].queue == [] {
      ReloadDoneKeeps(s, t);
    } else {
      ReloadMoveKeeps(s, t);
    }
  }

  lemma StepKeepsInv(s: State, e: Step)
    requires Inv(s) && Enabled(s, e)
    ensures Inv(Apply(s, e))
  {
    match e
    case Borrow(id, token, now) => BorrowKeeps(s, id, token, now);
    case StartCold(id, t, victim) => StartColdKeeps(s, id, t, victim);
    case DiscardStep(t) => DiscardStepKeeps(s, t);
    case FinishCold(t, ok, token, spec, now) => FinishKeeps(s, t, ok, token, spec, now);
    case Release(token, t, now) => ReleaseKeeps(s, token, t, now);
    case Drain(t) => DrainKeeps(s, t);
    case Reload(t, cfg, indexing, queue) => ReloadKeeps(s, t, cfg, indexing, queue);
    case ReloadStep(t) => ReloadStepKeeps(s, t);
    case CloseStart(t) => CloseStartKeeps(s, t);
    case CloseDetach(t, queue) => DetachKeeps(s, t, queue);
    case CloseStep(t) => CloseStepKeeps(s, t);
  }
}
