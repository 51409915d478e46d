/**
 The shape every file's object has: its FILE instance first, at most one MODULE and one
 DIRECTORY instance over the same bytes, and apart from these only declared instances.
 */
module Shape {
  import opened Containment
  import opened Entities
  import opened Store
  import opened StoreInvariant
  import opened StoreSteps

  function KindOf(list: seq<Symbol>, id: int): SymbolKind {
    if 0 < id <= |list| then list[id - 1].kind else Unspecified
  }

  /** An instance that no declaration added. */
  ghost predicate IsWhole(t: InstanceTable, f: int, o: ObjectRec, k: int) {
    0 <= k < |o.insts| && !IsTaken(t, Slot(f, k))
  }

  ghost predicate IsShaped(
      list: seq<Symbol>, t: InstanceTable, f: int, o: ObjectRec, moduleDone: bool, dirsDone: bool) {
    && IsWhole(t, f, o, 0) && KindOf(list, o.insts[0].symbolLocalId) == File
    && (forall k {:trigger IsWhole(t, f, o, k)} | IsWhole(t, f, o, k) ::
          && o.insts[k].start == 0 && o.insts[k].end == ToInt32(|o.content|)
          && var kind := KindOf(list, o.insts[k].symbolLocalId);
             k == 0 || (kind == Module && moduleDone) || (kind == Directory && dirsDone))
    && (forall j, k {:trigger IsWhole(t, f, o, j), IsWhole(t, f, o, k)} |
          IsWhole(t, f, o, j) && IsWhole(t, f, o, k) && j != k ::
          KindOf(list, o.insts[j].symbolLocalId) != KindOf(list, o.insts[k].symbolLocalId))
  }

  /** The symbol of the file's module exists. */
  predicate ModuleDone(modules: ModuleTable, f: int) {
    f in modules.ofFile && modules.ofFile[f] in modules.byID && modules.byID[modules.ofFile[f]].symbolID != 0
  }

  ghost predicate FileIsShaped(p: Project, f: int) {
    && IsObject(p.objects, f)
    && IsShaped(p.symbols.list, p.instances, f, p.objects[f - 1], ModuleDone(p.modules, f), p.directoriesCreated)
  }

  ghost predicate Shaped(p: Project) {
    forall f {:trigger FileIsShaped(p, f)} | f in p.files.pathByID :: FileIsShaped(p, f)
  }

  /** The object carries an instance of that kind that no declaration added. */
  ghost predicate HasWhole(list: seq<Symbol>, t: InstanceTable, f: int, o: ObjectRec, kind: SymbolKind) {
    exists k :: IsWhole(t, f, o, k) && KindOf(list, o.insts[k].symbolLocalId) == kind
  }

  ghost predicate HasModule(p: Project, f: int) {
    IsObject(p.objects, f) && HasWhole(p.symbols.list, p.instances, f, p.objects[f - 1], Module)
  }

  ghost predicate HasDirectory(p: Project, f: int) {
    IsObject(p.objects, f) && HasWhole(p.symbols.list, p.instances, f, p.objects[f - 1], Directory)
  }

  // ------------------------------------------------------------------
  // Steps on one object

  /** Longer symbol lists and unchanged instances change nothing. */
  lemma SameInstancesShaped(
      list: seq<Symbol>, more: seq<Symbol>, t: InstanceTable, f: int, o: ObjectRec, r: ObjectRec, m: bool, n: bool,
      d: bool, e: bool)
    requires list <= more && r.insts == o.insts && r.content == o.content && (m ==> n) && (d ==> e)
    requires NamesKnown(|list|, o)
    ensures IsShaped(list, t, f, o, m, d) ==> IsShaped(more, t, f, r, n, e)
    ensures forall kind :: HasWhole(list, t, f, o, kind) ==> HasWhole(more, t, f, r, kind)
  {
    forall k | IsWhole(t, f, o, k)
      ensures IsWhole(t, f, r, k) && KindOf(more, o.insts[k].symbolLocalId) == KindOf(list, o.insts[k].symbolLocalId)
    {}
    forall k | IsWhole(t, f, r, k) ensures IsWhole(t, f, o, k) {}
    if IsShaped(list, t, f, o, m, d) {
      assert IsWhole(t, f, r, 0);
    }
  }

  /** Appending an instance over the whole object, of a kind it does not have yet. */
  lemma WholeAppendedShaped(
      list: seq<Symbol>, t: InstanceTable, f: int, o: ObjectRec, info: InstanceInfo, m: bool, n: bool, d: bool, e: bool)
    requires IsShaped(list, t, f, o, m, d) && (m ==> n) && (d ==> e)
    requires !IsTaken(t, Slot(f, |o.insts|))
    requires info.start == 0 && info.end == ToInt32(|o.content|)
    requires var kind := KindOf(list, info.symbolLocalId); (kind == Module && !m && n) || (kind == Directory && !d && e)
    ensures var r := o.(insts := o.insts + [info]);
            && IsShaped(list, t, f, r, n, e) && HasWhole(list, t, f, r, KindOf(list, info.symbolLocalId))
            && (forall kind :: HasWhole(list, t, f, o, kind) ==> HasWhole(list, t, f, r, kind))
  {
    var r := o.(insts := o.insts + [info]);
    var last := |o.insts|;
    assert IsWhole(t, f, r, last) && IsWhole(t, f, r, 0);
    forall k | IsWhole(t, f, r, k) && k != last ensures IsWhole(t, f, o, k) && r.insts[k] == o.insts[k] {}
    forall k | IsWhole(t, f, o, k) ensures IsWhole(t, f, r, k) && r.insts[k] == o.insts[k] {}
  }

  /** Appending a declared instance, recorded in its slot. */
  lemma DeclaredAppendedShaped(
      list: seq<Symbol>, t: InstanceTable, u: InstanceTable, f: int, o: ObjectRec, info: InstanceInfo, m: bool, d: bool)
    requires IsShaped(list, t, f, o, m, d)
    requires forall slot :: IsTaken(u, slot) <==> IsTaken(t, slot) || slot == Slot(f, |o.insts|)
    ensures var r := o.(insts := o.insts + [info]);
            && IsShaped(list, u, f, r, m, d)
            && (forall kind :: HasWhole(list, t, f, o, kind) ==> HasWhole(list, u, f, r, kind))
  {
    var r := o.(insts := o.insts + [info]);
    forall k ensures IsWhole(u, f, r, k) <==> IsWhole(t, f, o, k) {}
    assert IsWhole(u, f, r, 0);
    forall kind | HasWhole(list, t, f, o, kind) ensures HasWhole(list, u, f, r, kind) {
      var k :| IsWhole(t, f, o, k) && KindOf(list, o.insts[k].symbolLocalId) == kind;
      assert IsWhole(u, f, r, k) && r.insts[k] == o.insts[k];
    }
    forall k | IsWhole(u, f, r, k) ensures r.insts[k] == o.insts[k] && IsWhole(t, f, o, k) {}
  }

  // ------------------------------------------------------------------
  // Steps on the project

  /** Every file keeps its shape and what it has. */
  ghost predicate KeepsFiles(p: Project, q: Project) {
    forall f {:trigger FileIsShaped(q, f)} | f in p.files.pathByID ::
      FileIsShaped(q, f) && (HasModule(p, f) ==> HasModule(q, f)) && (HasDirectory(p, f) ==> HasDirectory(q, f))
  }

  lemma SameInstancesKeep(p: Project, q: Project)
    requires Invariant(p) && Shaped(p)
    requires p.symbols.list <= q.symbols.list && q.instances == p.instances && |p.objects| <= |q.objects|
    requires forall o | 0 <= o < |p.objects| ::
               q.objects[o].insts == p.objects[o].insts && q.objects[o].content == p.objects[o].content
    requires p.directoriesCreated ==> q.directoriesCreated
    requires forall f | f in p.files.pathByID && ModuleDone(p.modules, f) :: ModuleDone(q.modules, f)
    ensures KeepsFiles(p, q)
  {
    forall f | f in p.files.pathByID
      ensures FileIsShaped(q, f) && (HasModule(p, f) ==> HasModule(q, f)) && (HasDirectory(p, f) ==> HasDirectory(q, f))
    {
      assert FileIsShaped(p, f);
      assert NamesKnown(|p.symbols.list|, p.objects[f - 1]);
      SameInstancesShaped(p.symbols.list, q.symbols.list, p.instances, f, p.objects[f - 1], q.objects[f - 1],
                          ModuleDone(p.modules, f), ModuleDone(q.modules, f),
                          p.directoriesCreated, q.directoriesCreated);
    }
  }

  lemma AddModuleShaped(p: Project, name: string)
    requires Invariant(p) && Shaped(p)
    ensures KeepsFiles(p, AddModule(p, name).0) && Shaped(AddModule(p, name).0)
  {
    var q := AddModule(p, name).0;
    forall f | f in p.files.pathByID && ModuleDone(p.modules, f) ensures ModuleDone(q.modules, f) {
      assert ModuleAgrees(p.modules, p.files.pathByID.Keys, p.symbols.list, p.modules.ofFile[f]);
    }
    SameInstancesKeep(p, q);
  }

  lemma NothingTakenBeyond(p: Project, f: int, k: int)
    requires SlotsAgree(p.instances, p.objects, p.symbols, p.files.pathByID.Keys)
    requires f !in p.files.pathByID || !IsObject(p.objects, f) || k >= |p.objects[f - 1].insts|
    ensures !IsTaken(p.instances, Slot(f, k))
  {
    forall id | id in p.instances.slots ensures p.instances.slots[id] != Slot(f, k) {
      assert IsRecorded(p.instances, p.objects, p.symbols, p.files.pathByID.Keys, id);
    }
  }

  lemma NewFileShaped(p: Project, path: string, content: seq<int>, instanceType: InstanceType)
    requires Invariant(p) && Shaped(p) && path !in p.files.idByPath
    ensures var q := NewFile(p, path, content, instanceType); KeepsFiles(p, q) && Shaped(q)
  {
    var q := NewFile(p, path, content, instanceType);
    SameInstancesKeep(p, q);
    var id := |p.objects| + 1;
    NothingTakenBeyond(p, id, 0);
    var o := q.objects[id - 1];
    assert IsWhole(q.instances, id, o, 0);
    assert forall k | IsWhole(q.instances, id, o, k) :: k == 0;
    assert FileIsShaped(q, id);
  }

  lemma KeepsTransitive(p: Project, q: Project, r: Project)
    requires KeepsFiles(p, q) && KeepsFiles(q, r) && p.files.pathByID.Keys <= q.files.pathByID.Keys
    ensures KeepsFiles(p, r)
  {
    forall f | f in p.files.pathByID
      ensures FileIsShaped(r, f) && (HasModule(p, f) ==> HasModule(r, f)) && (HasDirectory(p, f) ==> HasDirectory(r, f))
    {
      assert FileIsShaped(q, f) && FileIsShaped(r, f);
    }
  }

  lemma InModuleShaped(q: Project, m: int, id: int)
    requires Invariant(q) && Shaped(q) && m in q.modules.byID && id !in q.modules.ofFile
    ensures var r := q.(modules := InModule(q.modules, m, id)); KeepsFiles(q, r) && Shaped(r)
  {
    SameInstancesKeep(q, q.(modules := InModule(q.modules, m, id)));
  }

  lemma AddFileShaped(p: Project, moduleId: Option<int>, path: string, content: seq<int>, instanceType: InstanceType)
    requires Invariant(p) && Shaped(p) && path !in p.files.idByPath
    requires moduleId.Some? ==> moduleId.value in p.modules.byID
    ensures var q := AddFile(p, moduleId, path, content, instanceType).project; KeepsFiles(p, q) && Shaped(q)
  {
    NewFileShaped(p, path, content, instanceType);
    if moduleId.Some? {
      NewFileKeeps(p, path, content, instanceType);
      assert |p.objects| + 1 !in p.modules.ofFile;
      var q := NewFile(p, path, content, instanceType);
      InModuleShaped(q, moduleId.value, |p.objects| + 1);
      KeepsTransitive(p, q, q.(modules := InModule(q.modules, moduleId.value, |p.objects| + 1)));
    }
  }
}
