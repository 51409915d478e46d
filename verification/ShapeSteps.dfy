/** Declaring symbols and finalising keep the shape of every file's object. */
module ShapeSteps {
  import opened Entities
  import opened Store
  import opened StoreInvariant
  import opened StoreSteps
  import opened Finalise
  import opened Shape

  // ------------------------------------------------------------------
  // AddSymbol

  /** A file none of whose slots changes hands. */
  lemma OtherFileShaped(list: seq<Symbol>, t: InstanceTable, u: InstanceTable, f: int, o: ObjectRec, m: bool, d: bool)
    requires forall k :: IsTaken(u, Slot(f, k)) <==> IsTaken(t, Slot(f, k))
    ensures IsShaped(list, t, f, o, m, d) ==> IsShaped(list, u, f, o, m, d)
    ensures forall kind :: HasWhole(list, t, f, o, kind) ==> HasWhole(list, u, f, o, kind)
  {
    forall k ensures IsWhole(u, f, o, k) <==> IsWhole(t, f, o, k) {}
    forall kind | HasWhole(list, t, f, o, kind) ensures HasWhole(list, u, f, o, kind) {
      var k :| IsWhole(t, f, o, k) && KindOf(list, o.insts[k].symbolLocalId) == kind;
      assert IsWhole(u, f, o, k);
    }
  }

  lemma DeclaredTakes(t: InstanceTable, c: SymbolCall, symbolID: int, start: int, end: int, idx: nat, slot: Slot)
    requires t.nextID !in t.slots
    ensures IsTaken(WithDeclared(t, c, symbolID, start, end, idx), slot)
            <==> IsTaken(t, slot) || slot == Slot(c.fileId, idx)
  {
    var u := WithDeclared(t, c, symbolID, start, end, idx);
    if IsTaken(t, slot) {
      var id :| id in t.slots && t.slots[id] == slot;
      assert id in u.slots && u.slots[id] == slot;
    }
    if slot == Slot(c.fileId, idx) {
      assert t.nextID in u.slots && u.slots[t.nextID] == slot;
    }
    if IsTaken(u, slot) && slot != Slot(c.fileId, idx) {
      var id :| id in u.slots && u.slots[id] == slot;
      assert id in t.slots && t.slots[id] == slot;
    }
  }

  lemma DeclareShaped(p: Project, c: SymbolCall, symbolID: int, start: int, end: int)
    requires Invariant(p) && Shaped(p) && IsObject(p.objects, c.fileId)
    ensures KeepsFiles(p, Declare(p, c, symbolID, start, end)) && Shaped(Declare(p, c, symbolID, start, end))
  {
    hide WithDeclared, DeclaredInfo, IsShaped, HasWhole, IsTaken;
    var q := Declare(p, c, symbolID, start, end);
    var idx := |p.objects[c.fileId - 1].insts|;
    NextIDIsFree(p.instances, p.objects, p.symbols, p.files.pathByID.Keys);
    forall slot ensures IsTaken(q.instances, slot) <==> IsTaken(p.instances, slot) || slot == Slot(c.fileId, idx) {
      DeclaredTakes(p.instances, c, symbolID, start, end, idx, slot);
    }
    forall f | f in p.files.pathByID
      ensures FileIsShaped(q, f) && (HasModule(p, f) ==> HasModule(q, f)) && (HasDirectory(p, f) ==> HasDirectory(q, f))
    {
      assert FileIsShaped(p, f);
      var o := p.objects[f - 1];
      if f == c.fileId {
        DeclaredAppendedShaped(p.symbols.list, p.instances, q.instances, f, o, DeclaredInfo(c, symbolID, start, end),
                               ModuleDone(p.modules, f), p.directoriesCreated);
      } else {
        assert q.objects[f - 1] == o;
        OtherFileShaped(p.symbols.list, p.instances, q.instances, f, o, ModuleDone(p.modules, f), p.directoriesCreated);
      }
    }
  }

  lemma NamedShaped(p: Project, named: SymbolTable)
    requires Invariant(p) && Shaped(p) && SymbolsGrow(p.symbols, named)
    ensures KeepsFiles(p, p.(symbols := named)) && Shaped(p.(symbols := named))
  {
    SameInstancesKeep(p, p.(symbols := named));
  }

  lemma DeclareOnceShaped(q: Project, c: SymbolCall, symbolID: int, start: int, end: int)
    requires Invariant(q) && Shaped(q) && IsObject(q.objects, c.fileId)
    ensures var r := DeclareOnce(q, c, symbolID, start, end).project; KeepsFiles(q, r) && Shaped(r)
  {
    if InstanceKey(symbolID, c.fileId, start, end) in q.instances.idByKey {
      SameInstancesKeep(q, q);
    } else {
      DeclareShaped(q, c, symbolID, start, end);
    }
  }

  lemma AddSymbolShaped(p: Project, c: SymbolCall)
    requires Invariant(p) && Shaped(p) && Accepts(p, c)
    ensures KeepsFiles(p, AddSymbol(p, c).project) && Shaped(AddSymbol(p, c).project)
  {
    hide NamedSymbol, DeclareOnce, ClampedExtent, AllNamed, FilesAgree, ModulesAgree, SlotsAgree, StatedAgrees,
      EntriesAgree,
      LookupAgrees;
    var (named, symbolID) := NamedSymbol(p.symbols, p.files.pathByID[c.fileId], c);
    var q := p.(symbols := named);
    var (start, end) := ClampedExtent(c.start, c.end, |p.objects[c.fileId - 1].content|);
    var r := DeclareOnce(q, c, symbolID, start, end).project;
    assert AddSymbol(p, c).project == r;
    NamedSymbolKeeps(p.symbols, p.files.pathByID[c.fileId], c);
    NamedShaped(p, named);
    GrownSymbolsKeep(p, named);
    DeclareOnceShaped(q, c, symbolID, start, end);
    KeepsTransitive(p, q, r);
  }

  // ------------------------------------------------------------------
  // References

  lemma RefsShaped(p: Project, objects: seq<ObjectRec>)
    requires Invariant(p) && Shaped(p) && OnlyRefsAdded(p.objects, objects)
    ensures KeepsFiles(p, p.(objects := objects)) && Shaped(p.(objects := objects))
  {
    SameInstancesKeep(p, p.(objects := objects));
  }

  // ------------------------------------------------------------------
  // Module symbols

  /** Each listed object gets one instance more, the others none. */
  lemma {:induction false} ModuleInstancesAt(
      objects: seq<ObjectRec>, known: set<int>, symbolID: int, files: seq<int>, o: int)
    requires forall i, j | 0 <= i < j < |files| :: files[i] != files[j]
    requires 0 <= o < |objects|
    ensures var r := WithModuleInstances(objects, known, symbolID, files)[o];
            r == objects[o].(insts := objects[o].insts
                             + if o + 1 !in files || o + 1 !in known then []
                               else [WholeInstance(symbolID, InstanceType.Containment, |objects[o].content|)])
    decreases |files|
  {
    if |files| > 0 {
      var rest, last := files[..|files| - 1], files[|files| - 1];
      ModuleInstancesAt(objects, known, symbolID, rest, o);
      assert o + 1 in files <==> o + 1 in rest || o + 1 == last;
      assert o + 1 == last ==> o + 1 !in rest;
    } else {
      assert objects[o].insts + [] == objects[o].insts;
    }
  }

  lemma CreateModuleSymbolShaped(p: Project, m: int)
    requires Invariant(p) && Shaped(p) && m in p.modules.byID
    ensures KeepsFiles(p, CreateModuleSymbol(p, m)) && Shaped(CreateModuleSymbol(p, m))
    ensures forall f | f in p.modules.byID[m].fileIDs && p.modules.byID[m].symbolID == 0 ::
              HasModule(CreateModuleSymbol(p, m), f)
  {
    var q := CreateModuleSymbol(p, m);
    var info := p.modules.byID[m];
    assert ModuleAgrees(p.modules, p.files.pathByID.Keys, p.symbols.list, m);
    if info.symbolID != 0 {
      SameInstancesKeep(p, q);
    } else {
      forall f | f in p.files.pathByID
        ensures FileIsShaped(q, f) && (HasModule(p, f) ==> HasModule(q, f))
                && (HasDirectory(p, f) ==> HasDirectory(q, f))
        ensures f in info.fileIDs ==> HasModule(q, f)
      {
        ModuleSymbolAtFile(p, m, f);
      }
    }
  }

  lemma ModuleSymbolAtFile(p: Project, m: int, f: int)
    requires Invariant(p) && Shaped(p) && m in p.modules.byID && p.modules.byID[m].symbolID == 0
             && f in p.files.pathByID
    ensures var q := CreateModuleSymbol(p, m);
            && FileIsShaped(q, f)
            && (HasModule(p, f) ==> HasModule(q, f)) && (HasDirectory(p, f) ==> HasDirectory(q, f))
            && (f in p.modules.byID[m].fileIDs ==> HasModule(q, f))
  {
    var q := CreateModuleSymbol(p, m);
    hide IsShaped, HasWhole, IsTaken, SlotsAgree, StatedAgrees, EntriesAgree, LookupAgrees;
    var info := p.modules.byID[m];
    var id := |p.symbols.list| + 1;
    var o := p.objects[f - 1];
    assert ModuleAgrees(p.modules, p.files.pathByID.Keys, p.symbols.list, m);
    assert FileIsShaped(p, f);
    assert NamesKnown(|p.symbols.list|, o);
    ModuleInstancesAt(p.objects, p.files.pathByID.Keys, id, info.fileIDs, f - 1);
    SameInstancesShaped(p.symbols.list, q.symbols.list, p.instances, f, o, o,
                        ModuleDone(p.modules, f), ModuleDone(p.modules, f), p.directoriesCreated, p.directoriesCreated);
    if f in info.fileIDs {
      NothingTakenBeyond(p, f, |o.insts|);
      assert ModuleDone(q.modules, f) && !ModuleDone(p.modules, f);
      WholeAppendedShaped(q.symbols.list, p.instances, f, o, WholeInstance(id, InstanceType.Containment, |o.content|),
                          false, true, p.directoriesCreated, p.directoriesCreated);
    } else {
      assert q.objects[f - 1].insts == o.insts;
      SameInstancesShaped(q.symbols.list, q.symbols.list, p.instances, f, o, q.objects[f - 1],
                          ModuleDone(p.modules, f), ModuleDone(q.modules, f),
                        p.directoriesCreated, p.directoriesCreated);
    }
  }

  /** Creating symbols moves no file and renames no module. */
  lemma {:induction false} CreateEachModuleFiles(p: Project, modules: seq<int>)
    requires forall m | m in modules :: m in p.modules.byID
    ensures var q := CreateEachModule(p, modules);
            && q.files == p.files && q.modules.ofFile == p.modules.ofFile
            && q.directoriesCreated == p.directoriesCreated
            && q.instances == p.instances && q.symbols.byKey == p.symbols.byKey && q.imports == p.imports
            && (forall m | m in p.modules.byID :: q.modules.byID[m].fileIDs == p.modules.byID[m].fileIDs)
            && (forall m | m in p.modules.byID && m !in modules ::
                  q.modules.byID[m].symbolID == p.modules.byID[m].symbolID)
            && (forall m | m in p.modules.byID && (m in modules || p.modules.byID[m].symbolID != 0) ::
                  q.modules.byID[m].symbolID != 0)
    decreases |modules|
  {
    if |modules| > 0 {
      CreateEachModuleFiles(p, modules[..|modules| - 1]);
    }
  }

  lemma {:induction false} CreateEachModuleShaped(p: Project, modules: seq<int>)
    requires Invariant(p) && Shaped(p) && forall m | m in modules :: m in p.modules.byID
    ensures KeepsFiles(p, CreateEachModule(p, modules)) && Shaped(CreateEachModule(p, modules))
    decreases |modules|
  {
    if |modules| == 0 {
      SameInstancesKeep(p, p);
    } else {
      var rest, last := modules[..|modules| - 1], modules[|modules| - 1];
      var before := CreateEachModule(p, rest);
      CreateEachModuleKeeps(p, rest);
      CreateEachModuleShaped(p, rest);
      CreateEachModuleFiles(p, rest);
      CreateModuleSymbolShaped(before, last);
      KeepsTransitive(p, before, CreateModuleSymbol(before, last));
    }
  }
}
