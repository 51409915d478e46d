/**
 What each call does to the module and directory instances of one file: exactly which call
 gives the file which, and that nothing else adds or removes one.
 */
module Wholes {
  import opened Collections
  import opened Containment
  import opened Entities
  import opened Paths
  import opened Store
  import opened StoreInvariant
  import opened StoreSteps
  import opened Finalise
  import opened Shape
  import opened ShapeSteps
  import opened Directories
  import opened Effects
  import opened Runs

  // ------------------------------------------------------------------
  // One object

  /** The same instances under a longer list of symbols. */
  lemma SameWholes(list: seq<Symbol>, more: seq<Symbol>, t: InstanceTable, f: int, o: ObjectRec, r: ObjectRec)
    requires list <= more && r.insts == o.insts && NamesKnown(|list|, o)
    ensures forall kind :: HasWhole(more, t, f, r, kind) <==> HasWhole(list, t, f, o, kind)
  {
    forall k | 0 <= k < |o.insts|
      ensures IsWhole(t, f, r, k) <==> IsWhole(t, f, o, k)
      ensures KindOf(more, o.insts[k].symbolLocalId) == KindOf(list, o.insts[k].symbolLocalId)
    {}
    forall kind ensures HasWhole(more, t, f, r, kind) <==> HasWhole(list, t, f, o, kind) {
      if k :| IsWhole(t, f, o, k) && KindOf(list, o.insts[k].symbolLocalId) == kind {
        assert IsWhole(t, f, r, k);
      }
      if k :| IsWhole(t, f, r, k) && KindOf(more, r.insts[k].symbolLocalId) == kind {
        assert IsWhole(t, f, o, k);
      }
    }
  }

  /** One instance more that no declaration added. */
  lemma OneWholeMore(list: seq<Symbol>, t: InstanceTable, f: int, o: ObjectRec, r: ObjectRec, info: InstanceInfo)
    requires r.insts == o.insts + [info] && !IsTaken(t, Slot(f, |o.insts|))
    ensures forall kind ::
              HasWhole(list, t, f, r, kind)
              <==> HasWhole(list, t, f, o, kind) || kind == KindOf(list, info.symbolLocalId)
  {
    var last := |o.insts|;
    assert IsWhole(t, f, r, last);
    forall k | k != last ensures IsWhole(t, f, r, k) <==> IsWhole(t, f, o, k) {}
    forall kind
      ensures HasWhole(list, t, f, r, kind)
              <==> HasWhole(list, t, f, o, kind) || kind == KindOf(list, info.symbolLocalId)
    {
      if k :| IsWhole(t, f, o, k) && KindOf(list, o.insts[k].symbolLocalId) == kind {
        assert IsWhole(t, f, r, k) && r.insts[k] == o.insts[k];
      }
      if k :| IsWhole(t, f, r, k) && KindOf(list, r.insts[k].symbolLocalId) == kind && k != last {
        assert IsWhole(t, f, o, k) && r.insts[k] == o.insts[k];
      }
    }
  }

  /** Declared instances more, or none. */
  lemma DeclaredWholes(list: seq<Symbol>, t: InstanceTable, u: InstanceTable, f: int, o: ObjectRec, r: ObjectRec)
    requires o.insts <= r.insts
    requires forall k :: IsWhole(u, f, r, k) <==> IsWhole(t, f, o, k)
    ensures forall kind :: HasWhole(list, u, f, r, kind) <==> HasWhole(list, t, f, o, kind)
  {
    forall kind ensures HasWhole(list, u, f, r, kind) <==> HasWhole(list, t, f, o, kind) {
      if k :| IsWhole(t, f, o, k) && KindOf(list, o.insts[k].symbolLocalId) == kind {
        assert IsWhole(u, f, r, k);
      }
      if k :| IsWhole(u, f, r, k) && KindOf(list, r.insts[k].symbolLocalId) == kind {
        assert IsWhole(t, f, o, k);
      }
    }
  }

  // ------------------------------------------------------------------
  // One call

  /** The call creates the symbols that modules still need. */
  predicate CreatesModules(op: Op) {
    op.CallCreateModules? || op.CallMarshal?
  }

  /**
   What a call does for file `f`: creating module symbols gives it its module's instance
   exactly when its module had no symbol, finalising its directory's exactly when directories
   had none, and nothing else gives it either.
   */
  ghost predicate IsExact(p: Project, q: Project, f: int, modules: bool, directories: bool) {
    && f in q.files.pathByID && IsObject(p.objects, f) && IsObject(q.objects, f)
    && q.objects[f - 1].content == p.objects[f - 1].content
    && (f in q.modules.ofFile <==> f in p.modules.ofFile)
    && (ModuleDone(q.modules, f) <==> ModuleDone(p.modules, f) || (modules && f in p.modules.ofFile))
    && (HasModule(q, f) <==> HasModule(p, f) || (modules && f in p.modules.ofFile && !ModuleDone(p.modules, f)))
    && (q.directoriesCreated <==> p.directoriesCreated || directories)
    && (HasDirectory(q, f) <==> HasDirectory(p, f) || (directories && !p.directoriesCreated))
  }

  /** Nothing changes that counts for the containers of a file. */
  lemma QuietIsExact(p: Project, q: Project, f: int)
    requires Invariant(p) && f in p.files.pathByID && f in q.files.pathByID && IsObject(q.objects, f)
    requires p.symbols.list <= q.symbols.list && q.instances == p.instances
    requires q.objects[f - 1].insts == p.objects[f - 1].insts && q.objects[f - 1].content == p.objects[f - 1].content
    requires q.directoriesCreated == p.directoriesCreated && (f in q.modules.ofFile <==> f in p.modules.ofFile)
    requires ModuleDone(q.modules, f) <==> ModuleDone(p.modules, f)
    ensures IsExact(p, q, f, false, false)
  {
    hide ModuleDone, HasWhole;
    assert NamesKnown(|p.symbols.list|, p.objects[f - 1]);
    SameWholes(p.symbols.list, q.symbols.list, p.instances, f, p.objects[f - 1], q.objects[f - 1]);
  }

  lemma ExactTransitive(p: Project, q: Project, r: Project, f: int)
    requires IsExact(p, q, f, true, false) && IsExact(q, r, f, false, true)
    ensures IsExact(p, r, f, true, true)
  {
    hide ModuleDone, HasModule, HasDirectory;
  }

  lemma AddModuleIsExact(p: Project, name: string, f: int)
    requires Sound(p) && f in p.files.pathByID
    ensures IsExact(p, AddModule(p, name).0, f, false, false)
  {
    hide HasWhole, Shaped, IsExact, SymbolsAgree, SlotsAgree, StatedAgrees, EntriesAgree, LookupAgrees;
    var q := AddModule(p, name).0;
    if f in p.modules.ofFile {
      assert ModuleAgrees(p.modules, p.files.pathByID.Keys, p.symbols.list, p.modules.ofFile[f]);
    }
    QuietIsExact(p, q, f);
  }

  /** A new file leaves the others, and the modules of others, alone. */
  lemma AddFileMovesNothing(
      p: Project, moduleId: Option<int>, path: string, content: seq<int>, instanceType: InstanceType, f: int)
    requires IsObject(p.objects, f) && AddFile(p, moduleId, path, content, instanceType).Added?
    ensures var q := AddFile(p, moduleId, path, content, instanceType).project;
            && p.symbols.list <= q.symbols.list && q.instances == p.instances && p.objects <= q.objects
            && p.files.pathByID.Keys <= q.files.pathByID.Keys && q.directoriesCreated == p.directoriesCreated
            && (f in q.modules.ofFile <==> f in p.modules.ofFile)
            && (ModuleDone(q.modules, f) <==> ModuleDone(p.modules, f))
  {
    hide ModuleDone, InModule;
    if path !in p.files.idByPath && moduleId.Some? {
      InModuleMovesNothing(p.modules, moduleId.value, |p.objects| + 1, f);
    }
  }

  lemma InModuleMovesNothing(t: ModuleTable, m: int, id: int, f: int)
    requires m in t.byID && f != id
    ensures var u := InModule(t, m, id); (f in u.ofFile <==> f in t.ofFile) && (ModuleDone(u, f) <==> ModuleDone(t, f))
  {}

  lemma AddFileIsExact(
      p: Project, moduleId: Option<int>, path: string, content: seq<int>, instanceType: InstanceType, f: int)
    requires Sound(p) && f in p.files.pathByID && AddFile(p, moduleId, path, content, instanceType).Added?
    ensures IsExact(p, AddFile(p, moduleId, path, content, instanceType).project, f, false, false)
  {
    hide Shaped, IsExact, ModuleDone, AddFile;
    AddFileMovesNothing(p, moduleId, path, content, instanceType, f);
    QuietIsExact(p, AddFile(p, moduleId, path, content, instanceType).project, f);
  }

  lemma DeclareIsExact(p: Project, c: SymbolCall, symbolID: int, start: int, end: int, f: int)
    requires Sound(p) && f in p.files.pathByID && IsObject(p.objects, c.fileId)
    ensures IsExact(p, Declare(p, c, symbolID, start, end), f, false, false)
  {
    hide HasWhole, WithDeclared, DeclaredInfo, IsTaken;
    var q := Declare(p, c, symbolID, start, end);
    var o, idx := p.objects[f - 1], |p.objects[c.fileId - 1].insts|;
    NextIDIsFree(p.instances, p.objects, p.symbols, p.files.pathByID.Keys);
    forall k ensures IsWhole(q.instances, f, q.objects[f - 1], k) <==> IsWhole(p.instances, f, o, k) {
      DeclaredTakes(p.instances, c, symbolID, start, end, idx, Slot(f, k));
    }
    DeclaredWholes(p.symbols.list, p.instances, q.instances, f, o, q.objects[f - 1]);
  }

  lemma AddSymbolIsExact(p: Project, c: SymbolCall, f: int)
    requires Sound(p) && f in p.files.pathByID && Accepts(p, c)
    ensures IsExact(p, AddSymbol(p, c).project, f, false, false)
  {
    hide HasWhole, NamedSymbol, Declare, IsExact;
    var (named, symbolID) := NamedSymbol(p.symbols, p.files.pathByID[c.fileId], c);
    var q := p.(symbols := named);
    var (start, end) := ClampedExtent(c.start, c.end, |p.objects[c.fileId - 1].content|);
    NamedSymbolKeeps(p.symbols, p.files.pathByID[c.fileId], c);
    NamedShaped(p, named);
    GrownSymbolsKeep(p, named);
    QuietIsExact(p, q, f);
    QuietIsExact(q, q, f);
    DeclareIsExact(q, c, symbolID, start, end, f);
    assert AddSymbol(p, c).project == q || AddSymbol(p, c).project == Declare(q, c, symbolID, start, end);
    ExactThenExact(p, q, AddSymbol(p, c).project, f);
  }

  lemma ExactThenExact(p: Project, q: Project, r: Project, f: int)
    requires IsExact(p, q, f, false, false) && IsExact(q, r, f, false, false)
    ensures IsExact(p, r, f, false, false)
  {
    hide ModuleDone, HasModule, HasDirectory;
  }

  lemma ResolveIsExact(p: Project, f: int)
    requires Sound(p) && f in p.files.pathByID
    ensures IsExact(p, ResolveReferences(p), f, false, false)
  {
    hide HasWhole, FirstFailure, Shaped, IsExact, SlotsAgree, StatedAgrees, EntriesAgree, LookupAgrees;
    ResolveLogKeeps(p, FirstFailure(p, 0));
    QuietIsExact(p, ResolveReferences(p), f);
  }

  /** The instance of its module is all that is new in a file that gets it. */
  lemma ModuleIsWhole(p: Project, q: Project, modules: seq<int>, f: int)
    requires IsObject(p.objects, f) && IsObject(q.objects, f) && HasModuleInstance(p, q, modules, f)
    requires p.symbols.list <= q.symbols.list && q.instances == p.instances
    requires NamesKnown(|p.symbols.list|, p.objects[f - 1])
    requires !IsTaken(p.instances, Slot(f, |p.objects[f - 1].insts|))
    ensures q.objects[f - 1].content == p.objects[f - 1].content
    ensures HasModule(q, f) <==> HasModule(p, f) || GetsModule(p, modules, f)
    ensures HasDirectory(q, f) <==> HasDirectory(p, f)
  {
    hide HasWhole, IsTaken, GetsModule, ToInt32, NamesKnown;
    var o, r := p.objects[f - 1], q.objects[f - 1];
    SameWholes(p.symbols.list, q.symbols.list, p.instances, f, o, o);
    if GetsModule(p, modules, f) {
      OneWholeMore(q.symbols.list, p.instances, f, o, r, r.insts[|o.insts|]);
    }
  }

  lemma EachModuleIsExact(p: Project, modules: seq<int>, f: int)
    requires Sound(p) && f in p.files.pathByID && Enumerates(modules, p.modules.byID.Keys)
    ensures IsExact(p, CreateEachModule(p, modules), f, true, false)
  {
    hide HasWhole, Shaped, IsTaken, CreateEachModule, SymbolsAgree, FilesAgree, SlotsAgree, StatedAgrees, EntriesAgree,
      LookupAgrees, HasModuleInstance, NamesKnown;
    var q := CreateEachModule(p, modules);
    ModulesAsAsked(p, modules, f);
    CreateEachModuleFiles(p, modules);
    FileIsKnown(p, f);
    ModuleIsWhole(p, q, modules, f);
    assert GetsModule(p, modules, f) <==> f in p.modules.ofFile && !ModuleDone(p.modules, f);
  }

  lemma FileIsKnown(p: Project, f: int)
    requires Sound(p) && f in p.files.pathByID
    ensures IsObject(p.objects, f) && NamesKnown(|p.symbols.list|, p.objects[f - 1])
    ensures !IsTaken(p.instances, Slot(f, |p.objects[f - 1].insts|))
  {
    hide NamesKnown, IsTaken, Shaped;
    NothingTakenBeyond(p, f, |p.objects[f - 1].insts|);
  }

  lemma ModulesAreExact(p: Project, modules: seq<int>, f: int)
    requires Sound(p) && f in p.files.pathByID && Enumerates(modules, p.modules.byID.Keys)
    ensures IsExact(p, CreateModuleSymbols(p, modules), f, true, false)
  {
    hide HasWhole, CreateEachModule, ResolveImports, IsExact;
    var q := CreateEachModule(p, modules);
    EachModuleIsExact(p, modules, f);
    CreateEachModuleKeeps(p, modules);
    CreateEachModuleFiles(p, modules);
    ResolveImportsKeeps(q, |q.imports|);
    QuietIsExact(q, CreateModuleSymbols(p, modules), f);
    ExactThenQuiet(p, q, CreateModuleSymbols(p, modules), f);
  }

  lemma ExactThenQuiet(p: Project, q: Project, r: Project, f: int)
    requires IsExact(p, q, f, true, false) && IsExact(q, r, f, false, false)
    ensures IsExact(p, r, f, true, false)
  {
    hide ModuleDone, HasModule, HasDirectory;
  }

  lemma DirectoriesAreExact(p: Project, dirs: seq<string>, files: seq<int>, children: seq<string>, f: int)
    requires Sound(p) && f in p.files.pathByID && Ranges(p, dirs, files, children)
    ensures IsExact(p, CreateDirectorySymbols(p, dirs, files, children), f, false, true)
  {
    hide HasWhole, Shaped, IsTaken, CreateDirectorySymbols, Ranges;
    var q := CreateDirectorySymbols(p, dirs, files, children);
    if p.directoriesCreated {
      DirectoriesStay(p, dirs, files, children);
      QuietIsExact(p, q, f);
    } else {
      SomeDirectory(p, dirs, files, children, f);
      DirectoriesOnly(p, dirs, files, children);
      var symbol := DirectoryOnFile(p, dirs, files, children, f);
      NothingTakenBeyond(p, f, |p.objects[f - 1].insts|);
      assert NamesKnown(|p.symbols.list|, p.objects[f - 1]);
      SameWholes(p.symbols.list, q.symbols.list, p.instances, f, p.objects[f - 1], p.objects[f - 1]);
      OneWholeMore(q.symbols.list, p.instances, f, p.objects[f - 1], q.objects[f - 1],
                   WholeInstance(symbol, InstanceType.Containment, |p.objects[f - 1].content|));
    }
  }

  lemma DirectoriesStay(p: Project, dirs: seq<string>, files: seq<int>, children: seq<string>)
    requires p.directoriesCreated
    ensures CreateDirectorySymbols(p, dirs, files, children) == p
  {}

  lemma DirectoriesOnly(p: Project, dirs: seq<string>, files: seq<int>, children: seq<string>)
    requires !p.directoriesCreated && |dirs| > 0
    ensures var q := CreateDirectorySymbols(p, dirs, files, children);
            && q.files == p.files && q.modules == p.modules && q.instances == p.instances && q.directoriesCreated
            && p.symbols.list <= q.symbols.list
  {
    hide WithDirectories;
  }

  lemma SomeDirectory(p: Project, dirs: seq<string>, files: seq<int>, children: seq<string>, f: int)
    requires Ranges(p, dirs, files, children) && f in p.files.pathByID
    ensures |dirs| > 0
  {
    hide DirsOf;
    DirsContainParents(p.files.pathByID.Values, p.files.pathByID[f]);
    assert ParentDir(p.files.pathByID[f]) in dirs;
  }

  lemma MarshalIsExact(p: Project, modules: seq<int>, dirs: seq<string>, files: seq<int>, children: seq<string>, f: int)
    requires Sound(p) && f in p.files.pathByID && Enumerates(modules, p.modules.byID.Keys)
             && Ranges(p, dirs, files, children)
    ensures var q := CreateDirectorySymbols(CreateModuleSymbols(p, modules), dirs, files, children);
            IsExact(p, q, f, true, true)
  {
    hide CreateDirectorySymbols, CreateModuleSymbols, IsExact, Invariant, Shaped;
    var q := CreateModuleSymbols(p, modules);
    ModulesAreExact(p, modules, f);
    CreateModulesKeep(p, modules);
    ModulesMoveNoFile(p, modules);
    DirectoriesAreExact(q, dirs, files, children, f);
    ExactTransitive(p, q, CreateDirectorySymbols(q, dirs, files, children), f);
  }

  lemma ModulesMoveNoFile(p: Project, modules: seq<int>)
    requires forall m | m in modules :: m in p.modules.byID
    ensures CreateModuleSymbols(p, modules).files == p.files
  {
    hide ResolveImports;
    CreateEachModuleFiles(p, modules);
  }

  /** For a file that is there already, every call is exact. */
  lemma StepIsExact(p: Project, op: Op, f: int)
    requires Sound(p) && Possible(p, op) && f in p.files.pathByID
    ensures IsExact(p, Apply(p, op), f, CreatesModules(op), op.CallMarshal?)
  {
    hide Invariant, Shaped, CreateDirectorySymbols, CreateModuleSymbols, IsExact, Ranges;
    match op
    case CallAddModule(name) => AddModuleIsExact(p, name, f);
    case CallAddModuleImport(imp) => LogsAreExact(p, Apply(p, op), f);
    case CallAddFile(moduleId, path, content, instanceType) =>
      if AddFile(p, moduleId, path, content, instanceType).Added? {
        AddFileIsExact(p, moduleId, path, content, instanceType, f);
      } else {
        LogsAreExact(p, p, f);
      }
    case CallAddSymbol(call) =>
      if Accepts(p, call) {
        AddSymbolIsExact(p, call, f);
      } else {
        LogsAreExact(p, p, f);
      }
    case CallAddReference(ref) => LogsAreExact(p, Apply(p, op), f);
    case CallResolveReferences => ResolveIsExact(p, f);
    case CallCreateModules(modules) => ModulesAreExact(p, modules, f);
    case CallMarshal(modules, dirs, files, children) => MarshalIsExact(p, modules, dirs, files, children, f);
  }

  lemma LogsAreExact(p: Project, q: Project, f: int)
    requires Sound(p) && q == p.(references := q.references, imports := q.imports) && f in p.files.pathByID
    ensures IsExact(p, q, f, false, false)
  {
    QuietIsExact(p, q, f);
  }
}
