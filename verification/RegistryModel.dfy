/**
 The daemon's workspace registry as values: what its mutex protects, and the effect
 of each critical section on it.
 */
module RegistryModel {
  import opened Options

  type Id = string

  datatype Spec = Spec(id: Id, root: string, indexDir: string, configPath: string, digest: string,
                       fromProjectsDir: bool, description: string)

  /** Two specs describe the same collection; the description is metadata only. */
  predicate SpecsEqual(a: Spec, b: Spec) {
    a == b.(description := a.description)
  }

  /** A validated configuration: ids are unique. */
  datatype Config = Config(workspaces: map<Id, Spec>, maxOpen: nat)

  /** An open workspace. `hid` is the handle's identity. */
  datatype Handle = Handle(hid: nat, spec: Spec, refs: nat, lastUsed: int)

  /** A reservation in `opening`, with the task that made it. */
  datatype Wait = ColdOpen(task: nat) | Reserved(task: nat)

  /** The fields the registry mutex protects. */
  datatype Core = Core(
    cfg: Config,
    open: map<Id, Handle>,
    opening: map<Id, Wait>,
    closing: bool,
    discards: int,
    down: bool)

  predicate Idle(open: map<Id, Handle>, id: Id) {
    id in open && open[id].refs == 0
  }

  /** `victim` is what eviction picks: the least recently used idle workspace. */
  ghost predicate IsOldestIdle(open: map<Id, Handle>, victim: Option<Id>) {
    match victim
    case None => forall id :: !Idle(open, id)
    case Some(v) => Idle(open, v) && forall id | Idle(open, id) :: open[v].lastUsed <= open[id].lastUsed
  }

  function Borrowed(c: Core, id: Id, now: int): Core
    requires id in c.open
  {
    var h := c.open[id];
    c.(open := c.open[id := h.(refs := h.refs + 1, lastUsed := now)])
  }

  function Reserve(c: Core, id: Id, task: nat, victim: Option<Id>): Core {
    c.(open := if victim.Some? then c.open - {victim.value} else c.open,
       opening := c.opening[id := ColdOpen(task)])
  }

  function Discards(c: Core, delta: int): Core {
    c.(discards := c.discards + delta)
  }

  /** The end of a cold open: `h` is the new handle, None when init failed. */
  function FinishOpen(c: Core, id: Id, h: Option<Handle>): Core {
    var c1 := c.(opening := c.opening - {id});
    if h.None? then c1
    else if c.closing then Discards(c1, 1)
    else c1.(open := c.open[id := h.value])
  }

  predicate ReleaseDiscards(c: Core, id: Id)
    requires id in c.open
  {
    c.closing && c.open[id].refs == 1
  }

  function Released(c: Core, id: Id, now: int): Core
    requires id in c.open && c.open[id].refs > 0
  {
    var h := c.open[id];
    if ReleaseDiscards(c, id) then
      Discards(c.(open := c.open - {id}), 1)
    else
      c.(open := c.open[id := h.(refs := h.refs - 1, lastUsed := if h.refs == 1 then now else h.lastUsed)])
  }

  function Changed(old_: Config, new_: Config): set<Id> {
    set id | id in old_.workspaces &&
             !(id in new_.workspaces && SpecsEqual(old_.workspaces[id], new_.workspaces[id]))
  }

  function Busy(c: Core, ids: set<Id>, indexing: set<Id>): set<Id> {
    set id | id in ids && (id in c.opening || (id in c.open && (c.open[id].refs > 0 || id in indexing)))
  }

  /** Swap the snapshot, detach the changed handles and keep their ids reserved. */
  function Reloaded(c: Core, new_: Config, task: nat): Core {
    var ids := Changed(c.cfg, new_);
    c.(cfg := new_,
       open := c.open - ids,
       opening := c.opening + map id | id in ids :: Reserved(task))
  }

  function ReservationsReleased(c: Core, ids: set<Id>, task: nat): Core {
    c.(opening := map id | id in c.opening && !(id in ids && c.opening[id] == Reserved(task)) :: c.opening[id])
  }

  /** Close takes every idle handle out and leaves those still borrowed. */
  function IdleDetached(c: Core): Core {
    c.(open := map id | id in c.open && c.open[id].refs > 0 :: c.open[id])
  }

  predicate Drained(c: Core) {
    c.closing && !c.down && c.open == map[] && c.opening == map[] && c.discards == 0
  }

  function ShutDownIfDrained(c: Core): Core {
    if Drained(c) then c.(down := true) else c
  }
}
