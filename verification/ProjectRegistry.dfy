/**
 The user-level project registry: one registration file per collection id, and one
 project.yaml per project root.

 Paths, case folding and directory lookups come as functions. Every write and removal
 may fail: `oracle` says which. The management lock makes an operation exclusive.
 */
module ProjectRegistry {
  import opened Options

  datatype Registration = Registration(id: string, root: string, description: string)
  datatype ProjectConfig = ProjectConfig(id: string, description: string, daemonURL: string, settings: string)

  /** A project.yaml: what it says, or text that does not parse. */
  datatype File = Config(cfg: ProjectConfig) | Malformed(text: string)

  /** `canon` resolves an existing directory, `norm` is the form roots are compared in,
      `base` the last path element, `fold` the form ids are compared in. */
  datatype Names = Names(canon: string -> Option<string>, norm: string -> string, base: string -> string, fold: string -> string) {
    /** Resolving a directory does not change which one it is. */
    ghost predicate Lawful() { forall r: string :: canon(r).Some? ==> norm(canon(r).value) == norm(r) }
  }

  /** `registry` by id, as in the file names; `yaml` by normalised root. */
  datatype World = World(registry: map<string, Registration>, yaml: map<string, File>)

  predicate Filed(registry: map<string, Registration>) { forall i | i in registry :: registry[i].id == i }

  predicate UniqueIds(n: Names, registry: map<string, Registration>) {
    forall i, j | i in registry && j in registry && n.fold(i) == n.fold(j) :: i == j
  }

  predicate UniqueRoots(n: Names, registry: map<string, Registration>) {
    forall i, j | i in registry && j in registry && n.norm(registry[i].root) == n.norm(registry[j].root) :: i == j
  }

  /** What the strict loader accepts. */
  predicate Loadable(n: Names, registry: map<string, Registration>) {
    Filed(registry) && UniqueIds(n, registry) && UniqueRoots(n, registry)
  }

  /** The registration of a root. */
  predicate IsFor(n: Names, registry: map<string, Registration>, key: string, r: Option<Registration>) {
    match r
    case Some(reg) => reg.id in registry && registry[reg.id] == reg && n.norm(reg.root) == key
    case None => forall i | i in registry :: n.norm(registry[i].root) != key
  }

  predicate HasId(n: Names, registry: map<string, Registration>, id: string, r: Option<Registration>) {
    match r
    case Some(reg) => reg.id in registry && registry[reg.id] == reg && n.fold(reg.id) == n.fold(id)
    case None => forall i | i in registry :: n.fold(i) != n.fold(id)
  }

  /** Each of the first eight has been given to a registration. */
  predicate AllTaken(n: Names, registry: map<string, Registration>, candidates: seq<string>) {
    forall k | 0 <= k < |candidates| && k < 8 :: !HasId(n, registry, candidates[k], None)
  }

  /** A new registration for a root that has none, under an id that none has. */
  predicate Fresh(n: Names, registry: map<string, Registration>, key: string, reg: Registration) {
    n.norm(reg.root) == key && IsFor(n, registry, key, None) && HasId(n, registry, reg.id, None)
  }

  lemma FreshKeepsLoadable(n: Names, registry: map<string, Registration>, key: string, reg: Registration)
    requires Loadable(n, registry) && Fresh(n, registry, key, reg)
    ensures Loadable(n, registry[reg.id := reg])
  {
  }

  // --- the disk ----------------------------------------------------------------------------

  class Disk {
    const names: Names
    const oracle: nat -> bool
    var step: nat
    /** How many file operations have failed. */
    ghost var faults: nat
    var registry: map<string, Registration>
    var yaml: map<string, File>

    ghost function View(): World
      reads this
    {
      World(registry, yaml)
    }

    constructor (names: Names, oracle: nat -> bool, w: World)
      ensures this.names == names && View() == w
    {
      this.names, this.oracle, step, registry, yaml := names, oracle, 0, w.registry, w.yaml;
      faults := 0;
    }

    /** Whether the next file operation succeeds. */
    method Try() returns (ok: bool)
      modifies this`step, this`faults
      ensures faults == if ok then old(faults) else old(faults) + 1
    {
      ok := oracle(step);
      step := step + 1;
      if !ok {
        faults := faults + 1;
      }
    }

    method WriteRegistration(reg: Registration) returns (ok: bool)
      modifies this`step, this`faults, this`registry
      ensures faults == if ok then old(faults) else old(faults) + 1
      ensures registry == if ok then old(registry)[reg.id := reg] else old(registry)
    {
      ok := Try();
      if ok {
        registry := registry[reg.id := reg];
      }
    }

    method RemoveRegistration(id: string) returns (ok: bool)
      modifies this`step, this`faults, this`registry
      ensures faults == if ok then old(faults) else old(faults) + 1
      ensures registry == if ok then old(registry) - {id} else old(registry)
    {
      ok := Try();
      if ok {
        registry := registry - {id};
      }
    }

    method WriteYaml(key: string, f: File) returns (ok: bool)
      modifies this`step, this`faults, this`yaml
      ensures faults == if ok then old(faults) else old(faults) + 1
      ensures yaml == if ok then old(yaml)[key := f] else old(yaml)
    {
      ok := Try();
      if ok {
        yaml := yaml[key := f];
      }
    }

    method RemoveYaml(key: string) returns (ok: bool)
      modifies this`step, this`faults, this`yaml
      ensures faults == if ok then old(faults) else old(faults) + 1
      ensures yaml == if ok then old(yaml) - {key} else old(yaml)
    {
      ok := Try();
      if ok {
        yaml := yaml - {key};
      }
    }

    method FindByRoot(key: string) returns (r: Option<Registration>)
      requires Filed(registry)
      ensures IsFor(names, registry, key, r)
    {
      var todo := registry.Keys;
      while todo != {}
        invariant todo <= registry.Keys
        invariant forall i | i in registry.Keys - todo :: names.norm(registry[i].root) != key
        decreases todo
      {
        var i :| i in todo;
        if names.norm(registry[i].root) == key {
          return Some(registry[i]);
        }
        todo := todo - {i};
      }
      return None;
    }

    method FindById(id: string) returns (r: Option<Registration>)
      requires Filed(registry)
      ensures HasId(names, registry, id, r)
    {
      var todo := registry.Keys;
      while todo != {}
        invariant todo <= registry.Keys
        invariant forall i | i in registry.Keys - todo :: names.fold(i) != names.fold(id)
        decreases todo
      {
        var i :| i in todo;
        if names.fold(i) == names.fold(id) {
          return Some(registry[i]);
        }
        todo := todo - {i};
      }
      return None;
    }

    /** The first of up to eight generated ids that no registration has. */
    method UniqueCollectionID(candidates: seq<string>) returns (r: Option<string>)
      requires Filed(registry)
      ensures r.Some? ==> HasId(names, registry, r.value, None)
      ensures r.None? <==> AllTaken(names, registry, candidates)
      ensures r.Some? ==> exists k | 0 <= k < 8 && k < |candidates| ::
        candidates[k] == r.value && AllTaken(names, registry, candidates[..k])
    {
      var attempt := 0;
      while attempt < 8 && attempt < |candidates|
        invariant 0 <= attempt <= 8 && attempt <= |candidates| && AllTaken(names, registry, candidates[..attempt])
      {
        var taken := FindById(candidates[attempt]);
        if taken.None? {
          return Some(candidates[attempt]);
        }
        attempt := attempt + 1;
      }
      return None;
    }
  }
}
