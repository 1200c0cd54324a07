/**
 Adding, removing and re-identifying projects, and undoing it when the daemon refuses
 the new registry.
 */
module ProjectManagement {
  import opened Options
  import opened ProjectRegistry

  datatype Reason = NoRoot | BadRegistry | BadYaml | NoId | WriteFailed | IdMismatch | IdTaken | RemoveFailed

  datatype Outcome = Done(cfg: ProjectConfig) | Failed(why: Reason)

  function FileAt(yaml: map<string, File>, key: string): Option<File> { if key in yaml then Some(yaml[key]) else None }

  function PutBack(yaml: map<string, File>, key: string, f: Option<File>): map<string, File> {
    if f.Some? then yaml[key := f.value] else yaml - {key}
  }

  lemma PutBackRestores(before: map<string, File>, after: map<string, File>, key: string)
    requires forall k | k != key :: (k in before <==> k in after) && (k in before ==> before[k] == after[k])
    ensures PutBack(after, key, FileAt(before, key)) == before
  {
  }

  predicate SameElsewhere(before: map<string, File>, after: map<string, File>, key: string) {
    (forall k | k in before && k != key :: k in after && after[k] == before[k]) && (forall k | k in after && k != key :: k in before)
  }

  function Described(description: string, n: Names, root: string): string {
    if description == "" then n.base(root) else description
  }

  /** What fails does so because a file operation failed. */
  predicate Blamed(before: nat, after: nat, failed: bool) { before <= after && (failed <==> before < after) }

  /** Writes project.yaml, then the registration; puts project.yaml back if the second
      write fails. `undone`: nothing is left of a failed attempt. */
  method PersistNewProject(d: Disk, root: string, key: string, cfg: ProjectConfig) returns (ok: bool, ghost undone: bool)
    modifies d
    ensures ok ==> d.registry == old(d.registry)[cfg.id := Registration(cfg.id, root, Described(cfg.description, d.names, root))]
    ensures ok ==> d.yaml == old(d.yaml)[key := Config(cfg)]
    ensures ok ==> d.registry[cfg.id].description == if cfg.description == "" then d.names.base(root) else cfg.description
    ensures !ok ==> d.registry == old(d.registry) && SameElsewhere(old(d.yaml), d.yaml, key)
    ensures !ok && undone ==> d.View() == old(d.View())
    ensures old(d.faults) <= d.faults && (ok <==> d.faults == old(d.faults)) && (!undone ==> d.faults == old(d.faults) + 2)
  {
    var previous := FileAt(d.yaml, key);
    undone := true;
    ok := d.WriteYaml(key, Config(cfg));
    if !ok {
      return;
    }
    ok := d.WriteRegistration(Registration(cfg.id, root, Described(cfg.description, d.names, root)));
    if ok {
      return;
    }
    if previous.Some? {
      undone := d.WriteYaml(key, previous.value);
    } else {
      var removed := d.RemoveYaml(key);
      undone := removed;
    }
    if undone {
      PutBackRestores(old(d.yaml), d.yaml, key);
    }
  }

  /** The registration that a successful add leaves for the root. */
  ghost predicate Added(n: Names, before: map<string, Registration>, after: map<string, Registration>, key: string, reg: Registration) {
    && after == before[reg.id := reg] && n.norm(reg.root) == key
    && (IsFor(n, before, key, None) ==> HasId(n, before, reg.id, None))
    && (forall e: Registration :: IsFor(n, before, key, Some(e)) ==> n.fold(e.id) == n.fold(reg.id))
  }

  /** The root's project.yaml says `cfg`, and the root is registered under its id. */
  ghost predicate Registered(n: Names, w: World, key: string, cfg: ProjectConfig) {
    && FileAt(w.yaml, key) == Some(Config(cfg))
    && exists e: Registration :: IsFor(n, w.registry, key, Some(e)) && n.fold(e.id) == n.fold(cfg.id)
  }

  /** The registry and the files from which an add or a fork starts. */
  ghost predicate Readable(n: Names, w: World, root: string) {
    && n.canon(root).Some? && Loadable(n, w.registry)
    && (FileAt(w.yaml, n.norm(root)).Some? ==> w.yaml[n.norm(root)].Config?)
  }

  /** Why a root cannot be read, in the order in which that is found out. */
  ghost predicate Unreadable(n: Names, w: World, root: string, why: Reason) {
    match why
    case NoRoot => n.canon(root).None?
    case BadRegistry => n.canon(root).Some? && !Loadable(n, w.registry)
    case BadYaml => n.canon(root).Some? && Loadable(n, w.registry) && n.norm(root) in w.yaml && w.yaml[n.norm(root)].Malformed?
    case _ => false
  }

  /** Why an add is refused before anything is written; `existing` is the root's registration. */
  ghost predicate AddRefused(n: Names, w: World, root: string, candidates: seq<string>, existing: Option<Registration>, why: Reason) {
    var key := n.norm(root);
    match why
    case NoId => Readable(n, w, root) && key !in w.yaml && existing.None? && AllTaken(n, w.registry, candidates)
    case IdMismatch => Readable(n, w, root) && key in w.yaml && Mismatched(n, existing, w.yaml[key].cfg)
    case IdTaken =>
      && Readable(n, w, root) && key in w.yaml && !Mismatched(n, existing, w.yaml[key].cfg)
      && exists o :: HasId(n, w.registry, w.yaml[key].cfg.id, Some(o)) && n.norm(o.root) != key
    case _ => Unreadable(n, w, root, why)
  }

  predicate Mismatched(n: Names, existing: Option<Registration>, cfg: ProjectConfig) {
    existing.Some? && n.fold(existing.value.id) != n.fold(cfg.id)
  }

  /** Why a fork is refused before anything is written. */
  ghost predicate ForkRefused(n: Names, w: World, root: string, candidates: seq<string>, why: Reason) {
    if why.NoId? then Readable(n, w, root) && AllTaken(n, w.registry, candidates) else Unreadable(n, w, root, why)
  }

  method AddProject(d: Disk, root: string, candidates: seq<string>) returns (r: Outcome, ghost reg: Registration, ghost existing: Option<Registration>)
    requires d.names.Lawful()
    modifies d
    ensures SameElsewhere(old(d.yaml), d.yaml, d.names.norm(root))
    ensures !Loadable(d.names, old(d.registry)) ==> r.Failed?
    ensures r.Failed? ==> d.registry == old(d.registry)
    ensures r.Done? ==> Registered(d.names, d.View(), d.names.norm(root), r.cfg)
    ensures r.Done? ==> d.registry == old(d.registry) || Added(d.names, old(d.registry), d.registry, d.names.norm(root), reg)
    ensures r.Done? && IsFor(d.names, old(d.registry), d.names.norm(root), None) ==>
      Added(d.names, old(d.registry), d.registry, d.names.norm(root), reg)
    ensures r.Done? && d.names.norm(root) in old(d.yaml) ==>
      && d.yaml == old(d.yaml) && reg.id == r.cfg.id
      && Added(d.names, old(d.registry), d.registry, d.names.norm(root), reg)
    ensures r.Done? && d.names.norm(root) !in old(d.yaml) && !IsFor(d.names, old(d.registry), d.names.norm(root), None) ==>
      d.registry == old(d.registry)
    ensures Readable(d.names, old(d.View()), root) ==> IsFor(d.names, old(d.registry), d.names.norm(root), existing)
    ensures forall why :: AddRefused(d.names, old(d.View()), root, candidates, existing, why) ==> r == Failed(why)
    ensures r.Failed? && r.why != WriteFailed ==> AddRefused(d.names, old(d.View()), root, candidates, existing, r.why)
    ensures Blamed(old(d.faults), d.faults, r == Failed(WriteFailed))
  {
    reg, existing := Registration("", "", ""), None;
    var resolved := d.names.canon(root);
    if resolved.None? {
      return Failed(NoRoot), reg, None;
    }
    var rootAbs := resolved.value;
    var key := d.names.norm(rootAbs);
    if !Loadable(d.names, d.registry) {
      return Failed(BadRegistry), reg, None;
    }
    var found := d.FindByRoot(key);
    existing := found;
    var file := FileAt(d.yaml, key);
    if file.Some? && file.value.Malformed? {
      return Failed(BadYaml), reg, existing;
    }
    if file.None? {
      r, reg := AddWithoutFile(d, rootAbs, key, found, candidates);
    } else {
      r, reg := AddWithFile(d, rootAbs, key, found, file.value.cfg);
    }
  }

  /** Without project.yaml it is written: for the registration of the root, or for a new one. */
  method AddWithoutFile(d: Disk, root: string, key: string, existing: Option<Registration>, candidates: seq<string>)
    returns (r: Outcome, ghost reg: Registration)
    requires Loadable(d.names, d.registry) && IsFor(d.names, d.registry, key, existing) && key !in d.yaml && d.names.norm(root) == key
    modifies d
    ensures SameElsewhere(old(d.yaml), d.yaml, key)
    ensures r.Failed? ==> d.registry == old(d.registry)
    ensures r.Done? ==> Registered(d.names, d.View(), key, r.cfg)
    ensures r.Done? && existing.None? ==> Added(d.names, old(d.registry), d.registry, key, reg)
    ensures r.Done? && existing.Some? ==> d.registry == old(d.registry)
    ensures r == Failed(NoId) <==> existing.None? && AllTaken(d.names, old(d.registry), candidates)
    ensures r.Failed? ==> r.why.NoId? || r.why.WriteFailed?
    ensures Blamed(old(d.faults), d.faults, r == Failed(WriteFailed))
  {
    reg := Registration("", "", "");
    if existing.Some? {
      var cfg := ProjectConfig(existing.value.id, existing.value.description, "", "");
      var ok := d.WriteYaml(key, Config(cfg));
      assert ok ==> IsFor(d.names, d.registry, key, existing);
      return (if ok then Done(cfg) else Failed(WriteFailed)), reg;
    }
    var id := d.UniqueCollectionID(candidates);
    if id.None? {
      return Failed(NoId), reg;
    }
    var cfg := ProjectConfig(id.value, d.names.base(root), "", "");
    reg := Registration(cfg.id, root, Described(cfg.description, d.names, root));
    var ok, _ := PersistNewProject(d, root, key, cfg);
    assert ok ==> IsFor(d.names, d.registry, key, Some(reg));
    return (if ok then Done(cfg) else Failed(WriteFailed)), reg;
  }

  /** The project.yaml of a root says under which id it is registered. */
  method AddWithFile(d: Disk, root: string, key: string, existing: Option<Registration>, cfg: ProjectConfig)
    returns (r: Outcome, ghost reg: Registration)
    requires Loadable(d.names, d.registry) && IsFor(d.names, d.registry, key, existing) && d.names.norm(root) == key
    requires FileAt(d.yaml, key) == Some(Config(cfg))
    modifies d
    ensures d.yaml == old(d.yaml) && (r.Failed? ==> d.registry == old(d.registry))
    ensures r.Done? ==>
      r.cfg == cfg && reg.id == cfg.id && Registered(d.names, d.View(), key, r.cfg) && Added(d.names, old(d.registry), d.registry, key, reg)
    ensures r.Done? ==> reg.description == if cfg.description == "" then d.names.base(root) else cfg.description
    ensures r == Failed(IdMismatch) <==> Mismatched(d.names, existing, cfg)
    ensures r == Failed(IdTaken) <==> r != Failed(IdMismatch) &&
                                      exists o :: HasId(d.names, old(d.registry), cfg.id, Some(o)) && d.names.norm(o.root) != key
    ensures r.Failed? ==> r.why.IdMismatch? || r.why.IdTaken? || r.why.WriteFailed?
    ensures Blamed(old(d.faults), d.faults, r == Failed(WriteFailed))
  {
    reg := Registration("", "", "");
    if existing.Some? && d.names.fold(existing.value.id) != d.names.fold(cfg.id) {
      return Failed(IdMismatch), reg;
    }
    var other := d.FindById(cfg.id);
    if other.Some? && d.names.norm(other.value.root) != key {
      return Failed(IdTaken), reg;
    }
    reg := Registration(cfg.id, root, Described(cfg.description, d.names, root));
    var entry := Registration(cfg.id, root, Described(cfg.description, d.names, root));
    var ok := d.WriteRegistration(entry);
    assert ok ==> IsFor(d.names, d.registry, key, Some(reg));
    return (if ok then Done(cfg) else Failed(WriteFailed)), reg;
  }

  /** The registration that the fork drops: the root's own, if project.yaml names it. */
  ghost predicate Drops(n: Names, w: World, key: string, newId: string, e: Registration) {
    && IsFor(n, w.registry, key, Some(e)) && key in w.yaml && w.yaml[key].Config?
    && w.yaml[key].cfg.id != "" && n.fold(w.yaml[key].cfg.id) != n.fold(newId) && n.fold(w.yaml[key].cfg.id) == n.fold(e.id)
  }

  ghost predicate DropsExactly(n: Names, w: World, key: string, newId: string, dropped: Option<Registration>) {
    match dropped
    case Some(e) => Drops(n, w, key, newId, e)
    case None => forall e: Registration :: !Drops(n, w, key, newId, e)
  }

  function SettingsOf(f: Option<File>): string { if f.Some? && f.value.Config? then f.value.cfg.settings else "" }

  method NewProjectCollection(d: Disk, root: string, candidates: seq<string>)
    returns (r: Outcome, ghost reg: Registration, ghost dropped: Option<Registration>)
    requires d.names.Lawful()
    modifies d
    ensures SameElsewhere(old(d.yaml), d.yaml, d.names.norm(root))
    ensures !Loadable(d.names, old(d.registry)) ==> r.Failed?
    ensures r.Failed? && r.why != RemoveFailed ==> d.registry == old(d.registry)
    ensures r.Done? || r.why == RemoveFailed ==>
      && d.names.norm(reg.root) == d.names.norm(root) && HasId(d.names, old(d.registry), reg.id, None)
      && DropsExactly(d.names, old(d.View()), d.names.norm(root), reg.id, dropped)
    ensures r.Done? ==> d.registry == if dropped.Some? then old(d.registry)[reg.id := reg] - {dropped.value.id} else old(d.registry)[reg.id := reg]
    ensures r.Failed? && r.why == RemoveFailed ==> dropped.Some? && d.registry == old(d.registry)[reg.id := reg]
    ensures r.Done? ==> Registered(d.names, d.View(), d.names.norm(root), r.cfg) && r.cfg.id == reg.id && r.cfg.daemonURL == ""
    ensures r.Done? ==> r.cfg.settings == SettingsOf(FileAt(old(d.yaml), d.names.norm(root)))
    ensures forall why :: ForkRefused(d.names, old(d.View()), root, candidates, why) ==> r == Failed(why)
    ensures r.Failed? && r.why != WriteFailed && r.why != RemoveFailed ==> ForkRefused(d.names, old(d.View()), root, candidates, r.why)
    ensures Blamed(old(d.faults), d.faults, r == Failed(WriteFailed) || r == Failed(RemoveFailed))
  {
    reg, dropped := Registration("", "", ""), None;
    var resolved := d.names.canon(root);
    if resolved.None? {
      return Failed(NoRoot), reg, None;
    }
    var rootAbs := resolved.value;
    var key := d.names.norm(rootAbs);
    if !Loadable(d.names, d.registry) {
      return Failed(BadRegistry), reg, None;
    }
    var file := FileAt(d.yaml, key);
    if file.Some? && file.value.Malformed? {
      return Failed(BadYaml), reg, None;
    }
    var id := d.UniqueCollectionID(candidates);
    if id.None? {
      return Failed(NoId), reg, None;
    }
    r, reg, dropped := Fork(d, rootAbs, key, if file.Some? then Some(file.value.cfg) else None, id.value);
  }

  /** Re-identifies a root whose project.yaml says `cfg`, or that has none. */
  method Fork(d: Disk, root: string, key: string, cfg: Option<ProjectConfig>, id: string)
    returns (r: Outcome, ghost reg: Registration, ghost dropped: Option<Registration>)
    requires Loadable(d.names, d.registry) && HasId(d.names, d.registry, id, None) && d.names.norm(root) == key
    requires FileAt(d.yaml, key) == if cfg.Some? then Some(Config(cfg.value)) else None
    modifies d
    ensures SameElsewhere(old(d.yaml), d.yaml, key)
    ensures reg.id == id && d.names.norm(reg.root) == key
    ensures r.Failed? ==> r.why.WriteFailed? || r.why.RemoveFailed?
    ensures r == Failed(WriteFailed) ==> d.registry == old(d.registry)
    ensures r.Done? || r.why.RemoveFailed? ==> DropsExactly(d.names, old(d.View()), key, reg.id, dropped)
    ensures r.Done? ==> d.registry == if dropped.Some? then old(d.registry)[reg.id := reg] - {dropped.value.id} else old(d.registry)[reg.id := reg]
    ensures r == Failed(RemoveFailed) ==> dropped.Some? && d.registry == old(d.registry)[reg.id := reg]
    ensures r.Done? ==> Registered(d.names, d.View(), key, r.cfg) && r.cfg.id == reg.id && r.cfg.daemonURL == ""
    ensures r.Done? ==> r.cfg.settings == if cfg.Some? then cfg.value.settings else ""
    ensures Blamed(old(d.faults), d.faults, r.Failed?)
  {
    var oldId := if cfg.Some? then cfg.value.id else "";
    var previous := d.FindById(oldId);
    var base := if cfg.Some? then cfg.value else ProjectConfig("", d.names.base(root), "", "");
    var forked := ProjectConfig(id, Described(base.description, d.names, root), "", base.settings);
    reg := Registration(forked.id, root, Described(forked.description, d.names, root));
    dropped := None;
    var ok, _ := PersistNewProject(d, root, key, forked);
    if !ok {
      return Failed(WriteFailed), reg, None;
    }
    dropped := if oldId != "" && d.names.fold(oldId) != d.names.fold(id) && previous.Some? && d.names.norm(previous.value.root) == key
               then previous else None;
    var removed := DropPrevious(d, oldId, id, previous, key);
    if !removed {
      return Failed(RemoveFailed), reg, dropped;
    }
    assert IsFor(d.names, d.registry, key, Some(reg));
    return Done(forked), reg, dropped;
  }

  /** Drops the registration under the old id, if it is for this root. */
  method DropPrevious(d: Disk, oldId: string, id: string, previous: Option<Registration>, key: string) returns (ok: bool)
    modifies d`step, d`faults, d`registry
    ensures var drops := oldId != "" && d.names.fold(oldId) != d.names.fold(id) && previous.Some? && d.names.norm(previous.value.root) == key;
      && d.registry == (if drops && ok then old(d.registry) - {previous.value.id} else old(d.registry))
      && (!drops ==> ok)
    ensures d.faults == if ok then old(d.faults) else old(d.faults) + 1
  {
    if oldId != "" && d.names.fold(oldId) != d.names.fold(id) {
      if previous.Some? && d.names.norm(previous.value.root) == key {
        ok := d.RemoveRegistration(previous.value.id);
        return;
      }
    }
    return true;
  }

  /** Removing an unregistered root does nothing and succeeds. */
  method RemoveProject(d: Disk, root: string) returns (ok: bool, ghost existing: Option<Registration>)
    modifies d
    ensures SameElsewhere(old(d.yaml), d.yaml, d.names.norm(root))
    ensures !Loadable(d.names, old(d.registry)) ==> !ok && d.View() == old(d.View())
    ensures Loadable(d.names, old(d.registry)) ==> IsFor(d.names, old(d.registry), d.names.norm(root), existing)
    ensures ok && existing.None? ==> d.View() == old(d.View())
    ensures ok && existing.Some? ==> d.registry == old(d.registry) - {existing.value.id} && d.yaml == old(d.yaml) - {d.names.norm(root)}
    ensures !ok ==> d.registry == old(d.registry) || (existing.Some? && d.registry == old(d.registry) - {existing.value.id})
    ensures Blamed(old(d.faults), d.faults, Loadable(d.names, old(d.registry)) && !ok)
  {
    existing := None;
    ok := Loadable(d.names, d.registry);
    if !ok {
      return;
    }
    var key := d.names.norm(root);
    var found := d.FindByRoot(key);
    existing := found;
    if found.None? {
      return;
    }
    ok := d.RemoveRegistration(found.value.id);
    if ok {
      ok := d.RemoveYaml(key);
    }
  }
}
