/**
 The project commands: a change of the registry and a reload of the daemon as one
 operation, undone when the daemon refuses it.
 */
module ProjectCommands {
  import opened Options
  import opened ProjectRegistry
  import opened ProjectManagement

  /** What the daemon says to the reload: done, refused because a collection is busy, or
      another error. */
  datatype Reload = Reloaded | Conflict | Unreachable

  datatype Report =
    | Success
    | Refused(why: Reason)
    | NotReloaded
    | RolledBack
    | RollbackFailed

  datatype Snapshot = Snapshot(key: string, registration: Option<Registration>, file: Option<File>)

  /** The state of a root before a command, or an error when the registry does not load. */
  method CaptureSnapshot(d: Disk, root: string) returns (r: Option<Snapshot>)
    ensures r.Some? <==> Loadable(d.names, d.registry)
    ensures r.Some? ==> r.value.key == d.names.norm(root) && r.value.file == FileAt(d.yaml, r.value.key)
    ensures r.Some? ==> IsFor(d.names, d.registry, r.value.key, r.value.registration)
  {
    if !Loadable(d.names, d.registry) {
      return None;
    }
    var reg := d.FindByRoot(d.names.norm(root));
    return Some(Snapshot(d.names.norm(root), reg, FileAt(d.yaml, d.names.norm(root))));
  }

  /** Best effort: drops the root's registration unless it has the saved id, writes the
      saved one, and puts project.yaml back. A loaded registry has at most one
      registration for the root. */
  method Restore(d: Disk, s: Snapshot) returns (ok: bool)
    modifies d
    ensures !Loadable(d.names, old(d.registry)) ==> !ok && d.View() == old(d.View())
    ensures ok <==> Loadable(d.names, old(d.registry)) && d.faults == old(d.faults)
    ensures old(d.faults) <= d.faults
    ensures ok ==> d.yaml == PutBack(old(d.yaml), s.key, s.file)
    ensures ok ==> forall now: Option<Registration> :: IsFor(d.names, old(d.registry), s.key, now) ==>
      d.registry == Reinstated(old(d.registry), now, s.registration, d.names)
    ensures SameElsewhere(old(d.yaml), d.yaml, s.key)
  {
    ok := Loadable(d.names, d.registry);
    if !ok {
      return;
    }
    var now := d.FindByRoot(s.key);
    OneForRoot(d.names, d.registry, s.key, now);
    if now.Some? && !(s.registration.Some? && d.names.fold(now.value.id) == d.names.fold(s.registration.value.id)) {
      var removed := d.RemoveRegistration(now.value.id);
      ok := removed;
    }
    if s.registration.Some? {
      var written := d.WriteRegistration(s.registration.value);
      ok := ok && written;
    }
    var put: bool;
    if s.file.Some? {
      put := d.WriteYaml(s.key, s.file.value);
    } else {
      put := d.RemoveYaml(s.key);
    }
    ok := ok && put;
  }

  function Reinstated(registry: map<string, Registration>, now: Option<Registration>, saved: Option<Registration>, n: Names)
    : map<string, Registration>
  {
    var kept := if now.Some? && !(saved.Some? && n.fold(now.value.id) == n.fold(saved.value.id)) then registry - {now.value.id}
                else registry;
    if saved.Some? then kept[saved.value.id := saved.value] else kept
  }

  lemma OneForRoot(n: Names, registry: map<string, Registration>, key: string, now: Option<Registration>)
    requires Loadable(n, registry) && IsFor(n, registry, key, now)
    ensures forall other: Option<Registration> :: IsFor(n, registry, key, other) ==> other == now
  {
  }

  // --- undoing restores -----------------------------------------------------------------------

  /** A new registration is removed again. */
  lemma AddUndone(n: Names, before: map<string, Registration>, key: string, reg: Registration)
    requires Loadable(n, before) && Fresh(n, before, key, reg)
    ensures Loadable(n, before[reg.id := reg]) && IsFor(n, before[reg.id := reg], key, Some(reg))
    ensures Reinstated(before[reg.id := reg], Some(reg), None, n) == before
  {
    FreshKeepsLoadable(n, before, key, reg);
    assert before[reg.id := reg] - {reg.id} == before;
  }

  /** A removed registration is written again. */
  lemma RemoveUndone(n: Names, before: map<string, Registration>, key: string, e: Registration)
    requires Loadable(n, before) && IsFor(n, before, key, Some(e))
    ensures Loadable(n, before - {e.id}) && IsFor(n, before - {e.id}, key, None)
    ensures Reinstated(before - {e.id}, None, Some(e), n) == before
  {
    assert (before - {e.id})[e.id := e] == before;
  }

  /** A registration that replaced the root's own is replaced by it again. */
  lemma ForkUndone(n: Names, before: map<string, Registration>, key: string, e: Registration, reg: Registration)
    requires Loadable(n, before) && IsFor(n, before, key, Some(e)) && HasId(n, before, reg.id, None) && n.norm(reg.root) == key
    ensures var after := before[reg.id := reg] - {e.id};
            Loadable(n, after) && IsFor(n, after, key, Some(reg)) && Reinstated(after, Some(reg), Some(e), n) == before
  {
    var after := before[reg.id := reg] - {e.id};
    assert reg.id !in before && e.id != reg.id && n.fold(e.id) != n.fold(reg.id);
    assert (after - {reg.id})[e.id := e] == before;
  }

  /** What a command that was not refused says after the reload; `undoes` when a conflict undoes it. */
  predicate Answers(r: Report, reload: Reload, undoes: bool) {
    match reload
    case Reloaded => r.Success?
    case Unreachable => r.NotReloaded?
    case Conflict => if undoes then r.RolledBack? || r.RollbackFailed? else r.NotReloaded?
  }

  // --- the commands -----------------------------------------------------------------------------

  /** Adding a root that is not registered keeps the registry loadable; a refused reload
      leaves everything as it was, unless putting it back fails. Adding a registered root
      again keeps the registry loadable if and only if its project.yaml is missing or spells
      the id as the registration does. */
  method CommandProjectAdd(d: Disk, root: string, candidates: seq<string>, reload: Reload)
    returns (r: Report, ghost existing: Option<Registration>)
    requires d.names.Lawful()
    modifies d
    ensures SameElsewhere(old(d.yaml), d.yaml, d.names.norm(root))
    ensures Loadable(d.names, old(d.registry)) && IsFor(d.names, old(d.registry), d.names.norm(root), None) && !r.RollbackFailed? ==>
      Loadable(d.names, d.registry)
    ensures r.RolledBack? ==> d.View() == old(d.View())
    ensures r.Refused? ==> d.registry == old(d.registry)
    ensures r.RolledBack? || r.RollbackFailed? ==> reload.Conflict? && IsFor(d.names, old(d.registry), d.names.norm(root), None)
    ensures reload.Conflict? && IsFor(d.names, old(d.registry), d.names.norm(root), None) ==> !r.NotReloaded? && !r.Success?
    ensures r.Success? ==> reload.Reloaded?
    ensures r.Success? || r.NotReloaded? ==> exists cfg :: Registered(d.names, d.View(), d.names.norm(root), cfg)
    ensures Loadable(d.names, old(d.registry)) ==> IsFor(d.names, old(d.registry), d.names.norm(root), existing)
    ensures r == Refused(BadRegistry) <==> !Loadable(d.names, old(d.registry))
    ensures Loadable(d.names, old(d.registry)) ==>
      forall why :: AddRefused(d.names, old(d.View()), root, candidates, existing, why) ==> r == Refused(why)
    ensures r.Refused? && !r.why.WriteFailed? && !r.why.BadRegistry? ==>
      AddRefused(d.names, old(d.View()), root, candidates, existing, r.why)
    ensures old(d.faults) <= d.faults && (r == Refused(WriteFailed) || r.RollbackFailed? ==> old(d.faults) < d.faults)
    ensures r.Refused? || Answers(r, reload, existing.None?)
    ensures (r.Success? || r.NotReloaded?) && existing.Some? ==>
      (Loadable(d.names, d.registry) <==> SpeltAlike(FileAt(old(d.yaml), d.names.norm(root)), existing.value))
  {
    existing := None;
    var before := CaptureSnapshot(d, root);
    if before.None? {
      return Refused(BadRegistry), None;
    }
    existing := before.value.registration;
    ghost var w := d.View();
    var added, reg, found := AddProject(d, root, candidates);
    OneForRoot(d.names, w.registry, before.value.key, existing);
    SameRefusals(d.names, w, root, candidates, found, existing);
    if added.Failed? {
      return Refused(added.why), existing;
    }
    if before.value.registration.None? {
      assert Fresh(d.names, w.registry, before.value.key, reg);
      AddUndone(d.names, w.registry, before.value.key, reg);
    } else if before.value.key in w.yaml {
      ReaddKeepsLoadableIff(d.names, w.registry, before.value.key, existing.value, reg);
    }
    if reload.Reloaded? {
      return Success, existing;
    }
    if reload.Conflict? && before.value.registration.None? {
      var ok := UndoAdd(d, before.value, w, reg);
      return (if ok then RolledBack else RollbackFailed), existing;
    }
    return NotReloaded, existing;
  }

  lemma SameRefusals(n: Names, w: World, root: string, candidates: seq<string>, a: Option<Registration>, b: Option<Registration>)
    requires Readable(n, w, root) ==> a == b
    ensures forall why :: AddRefused(n, w, root, candidates, a, why) <==> AddRefused(n, w, root, candidates, b, why)
  {
  }

  /** After a refused reload of an add, as the snapshot was. */
  method UndoAdd(d: Disk, before: Snapshot, ghost w: World, ghost reg: Registration) returns (ok: bool)
    requires Loadable(d.names, w.registry) && Fresh(d.names, w.registry, before.key, reg) && before.registration.None?
    requires before.file == FileAt(w.yaml, before.key) && SameElsewhere(w.yaml, d.yaml, before.key)
    requires d.registry == w.registry[reg.id := reg]
    modifies d
    ensures SameElsewhere(w.yaml, d.yaml, before.key)
    ensures old(d.faults) <= d.faults && (ok <==> d.faults == old(d.faults))
    ensures ok ==> d.View() == w
  {
    AddUndone(d.names, w.registry, before.key, reg);
    ok := Restore(d, before);
    if ok {
      PutBackRestores(w.yaml, d.yaml, before.key);
    }
  }

  /** The root has no project.yaml, or one with the registered id letter for letter. */
  predicate SpeltAlike(file: Option<File>, existing: Registration) {
    file.None? || (file.value.Config? && file.value.cfg.id == existing.id)
  }

  function OtherRoots(n: Names, registry: map<string, Registration>, key: string): map<string, Registration> {
    map i | i in registry && n.norm(registry[i].root) != key :: registry[i]
  }

  lemma OnlyOneGoes(n: Names, registry: map<string, Registration>, key: string, existing: Option<Registration>)
    requires Loadable(n, registry) && IsFor(n, registry, key, existing)
    ensures OtherRoots(n, registry, key) == if existing.Some? then registry - {existing.value.id} else registry
  {
  }

  /** Removing a project keeps the registry loadable; a refused reload leaves everything as
      it was, unless putting it back fails. */
  method CommandProjectRemove(d: Disk, root: string, reload: Reload) returns (r: Report)
    modifies d
    ensures SameElsewhere(old(d.yaml), d.yaml, d.names.norm(root))
    ensures Loadable(d.names, old(d.registry)) && !r.RollbackFailed? ==> Loadable(d.names, d.registry)
    ensures r.RolledBack? ==> d.View() == old(d.View())
    ensures r.Success? || r.NotReloaded? ==>
      d.registry == OtherRoots(d.names, old(d.registry), d.names.norm(root))
    ensures (r.Success? || r.NotReloaded?) && !IsFor(d.names, old(d.registry), d.names.norm(root), None) ==>
      d.yaml == old(d.yaml) - {d.names.norm(root)}
    ensures (r.Success? || r.NotReloaded?) && IsFor(d.names, old(d.registry), d.names.norm(root), None) ==> d.yaml == old(d.yaml)
    ensures r.RolledBack? || r.RollbackFailed? ==> reload.Conflict?
    ensures r.NotReloaded? ==> reload.Unreachable?
    ensures r == Refused(BadRegistry) <==> !Loadable(d.names, old(d.registry))
    ensures old(d.faults) <= d.faults && (r == Refused(RemoveFailed) || r.RollbackFailed? ==> old(d.faults) < d.faults)
    ensures r.Refused? ==> r.why.BadRegistry? || r.why.RemoveFailed?
    ensures r.Refused? || (r.Success? && IsFor(d.names, old(d.registry), d.names.norm(root), None)) || Answers(r, reload, true)
  {
    var snap := CaptureSnapshot(d, root);
    if snap.None? {
      return Refused(BadRegistry);
    }
    ghost var registry, yaml := d.registry, d.yaml;
    ghost var key := d.names.norm(root);
    var ok, existing := RemoveProject(d, root);
    OneForRoot(d.names, registry, key, snap.value.registration);
    OnlyOneGoes(d.names, registry, key, snap.value.registration);
    if snap.value.registration.Some? {
      RemoveUndone(d.names, registry, key, snap.value.registration.value);
    }
    if !ok {
      return Refused(RemoveFailed);
    }
    if snap.value.registration.None? || reload.Reloaded? {
      return Success;
    }
    if reload.Conflict? {
      ok := Restore(d, snap.value);
      if ok {
        PutBackRestores(yaml, d.yaml, key);
      }
      return if ok then RolledBack else RollbackFailed;
    }
    return NotReloaded;
  }

  // --- forking, and where uniqueness is lost ------------------------------------------------------

  /** The root's project.yaml, if it is registered, names its own collection. */
  predicate Agrees(n: Names, w: World, key: string, existing: Option<Registration>) {
    existing.Some? ==>
      key in w.yaml && w.yaml[key].Config? && w.yaml[key].cfg.id != "" && n.fold(w.yaml[key].cfg.id) == n.fold(existing.value.id)
  }

  /** A fork leaves a loadable registry if and only if the root was not registered or its
      project.yaml names the registered collection. */
  lemma ForkKeepsLoadableIff(n: Names, w: World, key: string, existing: Option<Registration>, reg: Registration,
                             dropped: Option<Registration>)
    requires Loadable(n, w.registry) && IsFor(n, w.registry, key, existing)
    requires n.norm(reg.root) == key && HasId(n, w.registry, reg.id, None)
    requires DropsExactly(n, w, key, reg.id, dropped)
    ensures var after := if dropped.Some? then w.registry[reg.id := reg] - {dropped.value.id} else w.registry[reg.id := reg];
            Loadable(n, after) <==> Agrees(n, w, key, existing)
    ensures existing.Some? && Agrees(n, w, key, existing) ==> dropped == existing
    ensures existing.None? ==> dropped.None?
  {
    OneForRoot(n, w.registry, key, existing);
    if dropped.Some? {
      assert IsFor(n, w.registry, key, dropped) && existing == dropped;
      ForkUndone(n, w.registry, key, dropped.value, reg);
    } else if existing.Some? {
      assert !Drops(n, w, key, reg.id, existing.value);
      KeptPreviousBreaks(n, w.registry, key, existing.value, reg);
    } else {
      FreshKeepsLoadable(n, w.registry, key, reg);
    }
  }

  /** Adding a registered root again under an id that only folds to its own leaves a
      loadable registry if and only if the two are spelt alike. */
  lemma ReaddKeepsLoadableIff(n: Names, before: map<string, Registration>, key: string, e: Registration, reg: Registration)
    requires Loadable(n, before) && IsFor(n, before, key, Some(e)) && n.norm(reg.root) == key && n.fold(reg.id) == n.fold(e.id)
    ensures Loadable(n, before[reg.id := reg]) <==> reg.id == e.id
  {
    var after := before[reg.id := reg];
    if reg.id != e.id {
      assert e.id in after && reg.id in after;
    } else {
      forall i, j | i in after && j in after && n.norm(after[i].root) == n.norm(after[j].root) ensures i == j {
        assert n.norm(after[i].root) == n.norm(before[i].root) && n.norm(after[j].root) == n.norm(before[j].root);
      }
    }
  }

  /** A fork that cannot remove the previous registration leaves the root registered twice. */
  lemma KeptPreviousBreaks(n: Names, before: map<string, Registration>, key: string, e: Registration, reg: Registration)
    requires IsFor(n, before, key, Some(e)) && n.norm(reg.root) == key && HasId(n, before, reg.id, None)
    ensures !Loadable(n, before[reg.id := reg])
  {
    var after := before[reg.id := reg];
    assert e.id in after && reg.id in after && e.id != reg.id;
    assert n.norm(after[e.id].root) == n.norm(after[reg.id].root);
  }

  // --- worlds that show it ---------------------------------------------------------------------------

  /** Ids are folded to one; names are what they are. */
  function Folding(): Names { Names((r: string) => Some(r), (r: string) => r, (r: string) => r, (i: string) => if i == "A" then "a" else i) }

  /** A registered root whose project.yaml spells the id in the other case. */
  lemma OtherCaseBreaks(root: string)
    ensures var e := Registration("a", root, "");
            var before := map["a" := e];
            var file := Some(Config(ProjectConfig("A", "", "", "")));
            && Folding().Lawful() && Loadable(Folding(), before) && IsFor(Folding(), before, root, Some(e))
            && !SpeltAlike(file, e) && !Loadable(Folding(), before["A" := Registration("A", root, root)])
  {
    var e, reg := Registration("a", root, ""), Registration("A", root, root);
    var before := map["a" := e];
    assert "a" in before && "a" != "A";
    ReaddKeepsLoadableIff(Folding(), before, root, e, reg);
  }

  /** A registered root without project.yaml that is given a new collection. */
  lemma ForkWithoutFileBreaks(root: string)
    ensures var e := Registration("a", root, "");
            var w := World(map["a" := e], map[]);
            && Loadable(Folding(), w.registry) && IsFor(Folding(), w.registry, root, Some(e))
            && !Agrees(Folding(), w, root, Some(e)) && !Loadable(Folding(), w.registry["b" := Registration("b", root, root)])
  {
    var e, reg := Registration("a", root, ""), Registration("b", root, root);
    var w := World(map["a" := e], map[]);
    assert "a" in w.registry && "a" != "b";
    assert HasId(Folding(), w.registry, "b", None);
    ForkKeepsLoadableIff(Folding(), w, root, Some(e), reg, None);
  }

  /** After a refused reload of a fork, as the snapshot was. */
  method UndoFork(d: Disk, before: Snapshot, ghost w: World, ghost reg: Registration, ghost dropped: Option<Registration>)
    returns (ok: bool)
    requires Loadable(d.names, w.registry) && IsFor(d.names, w.registry, before.key, before.registration)
    requires before.file == FileAt(w.yaml, before.key) && SameElsewhere(w.yaml, d.yaml, before.key)
    requires d.names.norm(reg.root) == before.key && HasId(d.names, w.registry, reg.id, None)
    requires dropped.Some? ==> dropped == before.registration
    requires d.registry == if dropped.Some? then w.registry[reg.id := reg] - {dropped.value.id} else w.registry[reg.id := reg]
    requires before.registration.Some? && Agrees(d.names, w, before.key, before.registration) ==> dropped.Some?
    requires Loadable(d.names, d.registry) <==> Agrees(d.names, w, before.key, before.registration)
    modifies d
    ensures SameElsewhere(w.yaml, d.yaml, before.key)
    ensures ok ==> Agrees(d.names, w, before.key, before.registration) && d.View() == w
    ensures old(d.faults) <= d.faults
    ensures ok <==> Agrees(d.names, w, before.key, before.registration) && d.faults == old(d.faults)
  {
    if before.registration.Some? && Agrees(d.names, w, before.key, before.registration) {
      ForkUndone(d.names, w.registry, before.key, before.registration.value, reg);
    } else if before.registration.None? {
      AddUndone(d.names, w.registry, before.key, reg);
    }
    ok := Restore(d, before);
    if ok {
      PutBackRestores(w.yaml, d.yaml, before.key);
    }
  }

  /** Forking a root that agrees with its project.yaml keeps the registry loadable; if the
      previous registration cannot be removed, it is not loadable any more; a refused reload
      leaves everything as it was, unless putting it back fails. */
  method CommandProjectNewCollection(d: Disk, root: string, candidates: seq<string>, reload: Reload)
    returns (r: Report, ghost existing: Option<Registration>)
    requires d.names.Lawful()
    modifies d
    ensures SameElsewhere(old(d.yaml), d.yaml, d.names.norm(root))
    ensures Loadable(d.names, old(d.registry)) ==> IsFor(d.names, old(d.registry), d.names.norm(root), existing)
    ensures (r.Success? || r.NotReloaded?) && Loadable(d.names, old(d.registry)) ==>
      (Loadable(d.names, d.registry) <==> Agrees(d.names, old(d.View()), d.names.norm(root), existing))
    ensures r.Refused? && r.why != RemoveFailed ==> d.registry == old(d.registry)
    ensures r.Refused? && r.why == RemoveFailed ==> !Loadable(d.names, d.registry)
    ensures r.Success? || r.NotReloaded? ==> exists cfg ::
      && Registered(d.names, d.View(), d.names.norm(root), cfg) && HasId(d.names, old(d.registry), cfg.id, None)
      && cfg.settings == SettingsOf(FileAt(old(d.yaml), d.names.norm(root)))
    ensures r.RolledBack? ==> Agrees(d.names, old(d.View()), d.names.norm(root), existing) && d.View() == old(d.View())
    ensures r.RolledBack? || r.RollbackFailed? <==> reload.Conflict? && !r.Refused?
    ensures r == Refused(BadRegistry) <==> !Loadable(d.names, old(d.registry))
    ensures Loadable(d.names, old(d.registry)) ==>
      forall why :: ForkRefused(d.names, old(d.View()), root, candidates, why) ==> r == Refused(why)
    ensures r.Refused? && !r.why.WriteFailed? && !r.why.RemoveFailed? && !r.why.BadRegistry? ==>
      ForkRefused(d.names, old(d.View()), root, candidates, r.why)
    ensures old(d.faults) <= d.faults
    ensures r == Refused(WriteFailed) || r == Refused(RemoveFailed) ==> old(d.faults) < d.faults
    ensures r.RollbackFailed? ==> old(d.faults) < d.faults || !Agrees(d.names, old(d.View()), d.names.norm(root), existing)
    ensures r.Refused? || Answers(r, reload, true)
  {
    existing := None;
    var before := CaptureSnapshot(d, root);
    if before.None? {
      return Refused(BadRegistry), None;
    }
    existing := before.value.registration;
    ghost var w := d.View();
    ghost var key := d.names.norm(root);
    var forked, reg, dropped := NewProjectCollection(d, root, candidates);
    if forked.Failed? {
      if forked.why == RemoveFailed {
        KeptPreviousBreaks(d.names, w.registry, key, dropped.value, reg);
      }
      return Refused(forked.why), existing;
    }
    ForkKeepsLoadableIff(d.names, w, key, existing, reg, dropped);
    if reload.Conflict? {
      var ok := UndoFork(d, before.value, w, reg, dropped);
      return (if ok then RolledBack else RollbackFailed), existing;
    }
    return (if reload.Reloaded? then Success else NotReloaded), existing;
  }
}
