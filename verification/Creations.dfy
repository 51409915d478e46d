/**
 What the finalisers create, told by names: the symbols of modules, the references of imports to
 them, and the references between directories; and what they leave alone.
 */
module Creations {
  import opened Collections
  import opened Containment
  import opened Entities
  import opened Paths
  import opened Store
  import opened StoreInvariant
  import opened Finalise
  import opened Directories
  import opened Resolution
  import opened Effects

  // ------------------------------------------------------------------
  // Symbols of modules

  /** Symbol number `k` has been created for a module that had none, under the module's name. */
  ghost predicate IsOfNewModule(p: Project, q: Project, modules: seq<int>, k: int) {
    exists m :: m in modules && IsSymbolOfNew(p, q, m, k)
  }

  predicate IsSymbolOfNew(p: Project, q: Project, m: int, k: int) {
    && m in p.modules.byID && p.modules.byID[m].symbolID == 0 && m in q.modules.byID && q.modules.byID[m].symbolID == k
    && 0 < k <= |q.symbols.list| && q.symbols.list[k - 1] == Symbol(k, p.modules.byID[m].name, NoScope, Module)
  }

  /** The new symbols are those of the modules that had none, and the tables by name are as before. */
  ghost predicate AddsModuleSymbols(p: Project, q: Project, modules: seq<int>) {
    && p.symbols.list <= q.symbols.list && q.symbols == p.symbols.(list := q.symbols.list)
    && (forall k | |p.symbols.list| < k <= |q.symbols.list| :: IsOfNewModule(p, q, modules, k))
    && q.modules == p.modules.(byID := q.modules.byID) && q.modules.byID.Keys == p.modules.byID.Keys
    && (forall m | m in p.modules.byID ::
          q.modules.byID[m] == p.modules.byID[m].(symbolID := q.modules.byID[m].symbolID))
    && (forall m | m in p.modules.byID && p.modules.byID[m].symbolID != 0 :: q.modules.byID[m] == p.modules.byID[m])
    && (forall m | m in p.modules.byID && m in modules :: q.modules.byID[m].symbolID != 0)
    && q == p.(symbols := q.symbols, modules := q.modules, objects := q.objects)
  }

  lemma OneAddsModuleSymbol(p: Project, m: int)
    requires m in p.modules.byID
    ensures AddsModuleSymbols(p, CreateModuleSymbol(p, m), [m])
  {
    hide WithModuleInstances;
    var q := CreateModuleSymbol(p, m);
    forall k | |p.symbols.list| < k <= |q.symbols.list| ensures IsOfNewModule(p, q, [m], k) {
      assert m in [m] && IsSymbolOfNew(p, q, m, k);
    }
  }

  lemma AddsInTurn(p: Project, q: Project, r: Project, rest: seq<int>, m: int)
    requires AddsModuleSymbols(p, q, rest) && AddsModuleSymbols(q, r, [m])
    ensures AddsModuleSymbols(p, r, rest + [m])
  {
    forall k | |p.symbols.list| < k <= |r.symbols.list| ensures IsOfNewModule(p, r, rest + [m], k) {
      if k <= |q.symbols.list| {
        assert IsOfNewModule(p, q, rest, k);
        var n :| n in rest && IsSymbolOfNew(p, q, n, k);
        assert n in rest + [m] && IsSymbolOfNew(p, r, n, k);
      } else {
        assert IsOfNewModule(q, r, [m], k);
        var n :| n in [m] && IsSymbolOfNew(q, r, n, k);
        assert n in rest + [m] && IsSymbolOfNew(p, r, n, k);
      }
    }
  }

  lemma {:induction false} EachAddsModuleSymbol(p: Project, modules: seq<int>)
    requires forall m | m in modules :: m in p.modules.byID
    ensures AddsModuleSymbols(p, CreateEachModule(p, modules), modules)
    decreases |modules|
  {
    hide CreateModuleSymbol, AddsModuleSymbols;
    if |modules| == 0 {
      NoneAdded(p);
    } else {
      var rest, m := modules[..|modules| - 1], modules[|modules| - 1];
      EachAddsModuleSymbol(p, rest);
      OneAddsModuleSymbol(CreateEachModule(p, rest), m);
      AddsInTurn(p, CreateEachModule(p, rest), CreateEachModule(p, modules), rest, m);
      assert rest + [m] == modules;
    }
  }

  lemma NoneAdded(p: Project)
    ensures AddsModuleSymbols(p, p, [])
  {}

  /** All that the creation of module symbols does but to objects; the import log is used up. */
  lemma ModuleSymbolsAsAsked(p: Project, modules: seq<int>)
    requires forall m | m in modules :: m in p.modules.byID
    ensures var q := CreateModuleSymbols(p, modules);
            AddsModuleSymbols(p, q.(imports := p.imports), modules) && q.imports == []
  {
    hide CreateEachModule, ResolveImports;
    EachAddsModuleSymbol(p, modules);
    var e, q := CreateEachModule(p, modules), CreateModuleSymbols(p, modules).(imports := p.imports);
    forall k | |p.symbols.list| < k <= |q.symbols.list| ensures IsOfNewModule(p, q, modules, k) {
      assert IsOfNewModule(p, e, modules, k);
      var m :| m in modules && IsSymbolOfNew(p, e, m, k);
      assert m in modules && IsSymbolOfNew(p, q, m, k);
    }
  }

  // ------------------------------------------------------------------
  // Imports

  /** The symbol of the module of that name. */
  predicate IsModuleNamed(q: Project, name: string, symbol: int) {
    && name in q.modules.byName && q.modules.byName[name] in q.modules.byID
    && q.modules.byID[q.modules.byName[name]].symbolID == symbol
    && 0 < symbol <= |q.symbols.list| && q.symbols.list[symbol - 1].kind == Module
    && q.symbols.list[symbol - 1].name == name
  }

  /** Import `i` is of the module that the token's symbol names, from file `f`, at the token's place. */
  predicate ImportsAs(p: Project, q: Project, f: int, i: int, token: Token) {
    && 0 <= i < |p.imports|
    && var imp := p.imports[i];
       && imp.fromFileID == f && IsModuleNamed(q, imp.toModuleName, token.toSymbolLocalId)
       && token.start == ToInt32(imp.start) && token.end == ToInt32(imp.end)
  }

  /** Once all modules have symbols, an import's target is the symbol of the module it names, if there is one. */
  lemma TargetIsNamed(p: Project, e: Project, imp: ModuleImport)
    requires Invariant(e) && e.modules.byName == p.modules.byName
    requires forall m | m in e.modules.byID :: e.modules.byID[m].symbolID != 0
    ensures ImportTarget(e, imp) != 0 <==> imp.toModuleName in p.modules.byName
    ensures forall symbol ::
              IsModuleNamed(e, imp.toModuleName, symbol) <==> ImportTarget(e, imp) == symbol && symbol != 0
  {
    hide SymbolsAgree, AllNamed, FilesAgree, SlotsAgree, StatedAgrees, EntriesAgree, LookupAgrees;
    if imp.toModuleName in p.modules.byName {
      assert ModuleAgrees(e.modules, e.files.pathByID.Keys, e.symbols.list, e.modules.byName[imp.toModuleName]);
    }
  }

  lemma NamedImportIs(p: Project, e: Project, f: int, i: int, token: Token)
    requires Invariant(e) && e.modules.byName == p.modules.byName && e.imports == p.imports
    requires forall m | m in e.modules.byID :: e.modules.byID[m].symbolID != 0
    ensures 0 <= i < |p.imports| && ImportCounts(e, f, i) && ImportToken(e, i) == token
            <==> ImportsAs(p, e, f, i, token)
  {
    hide Invariant, ImportTarget, ToInt32, IsModuleNamed;
    if 0 <= i < |p.imports| {
      TargetIsNamed(p, e, p.imports[i]);
    }
  }

  /**
   After the module symbols, a file has one reference more for each distinct place and module
   that its imports name, if a module of that name was added; the reference is to the symbol
   of exactly that module.
   */
  lemma ImportsByName(p: Project, modules: seq<int>, f: int) returns (added: seq<RefInfo>)
    requires Invariant(p) && f in p.files.pathByID && Enumerates(modules, p.modules.byID.Keys)
    ensures var q := CreateModuleSymbols(p, modules);
            && IsObject(p.objects, f) && |q.objects| == |p.objects|
            && q.objects[f - 1].refs == p.objects[f - 1].refs + added
            && DistinctTokens(added) && (forall a | 0 <= a < |added| :: added[a].full == None)
            && (forall token :: IsAmong(added, token) <==> exists i :: ImportsAs(p, q, f, i, token))
            && (forall name | name in p.modules.byName :: exists symbol :: IsModuleNamed(q, name, symbol))
  {
    hide Invariant, CreateEachModule, ResolveImports, ImportTarget, ToInt32, DistinctTokens, IsAmong, HasModuleInstance;
    var e, q := CreateEachModule(p, modules), CreateModuleSymbols(p, modules);
    ModulesAsAsked(p, modules, f);
    ObjectRefsStay(p, modules, f);
    CreateEachModuleKeeps(p, modules);
    EachAddsModuleSymbol(p, modules);
    forall m | m in e.modules.byID ensures e.modules.byID[m].symbolID != 0 {
      assert m in modules;
    }
    added := ImportsAsAsked(e, f, |e.imports|);
    forall token ensures IsAmong(added, token) <==> exists i :: ImportsAs(p, q, f, i, token) {
      ImportsAgree(p, e, q, f, token);
    }
    forall name | name in p.modules.byName ensures exists symbol :: IsModuleNamed(q, name, symbol) {
      var imp := ModuleImport(0, name, 0, 0, 0);
      TargetIsNamed(p, e, imp);
      assert IsModuleNamed(e, name, ImportTarget(e, imp));
      assert IsModuleNamed(q, name, ImportTarget(e, imp));
    }
  }

  lemma ObjectRefsStay(p: Project, modules: seq<int>, f: int)
    requires Invariant(p) && f in p.files.pathByID && IsObject(p.objects, f)
    requires forall m | m in modules :: m in p.modules.byID
    requires var q := CreateEachModule(p, modules); IsObject(q.objects, f) && HasModuleInstance(p, q, modules, f)
    ensures CreateEachModule(p, modules).objects[f - 1].refs == p.objects[f - 1].refs
  {}

  lemma ImportsAgree(p: Project, e: Project, q: Project, f: int, token: Token)
    requires Invariant(e) && e.modules.byName == p.modules.byName && e.imports == p.imports
    requires forall m | m in e.modules.byID :: e.modules.byID[m].symbolID != 0
    requires q.modules == e.modules && q.symbols == e.symbols
    ensures (exists i :: i < |e.imports| && ImportCounts(e, f, i) && ImportToken(e, i) == token)
            <==> exists i :: ImportsAs(p, q, f, i, token)
  {
    hide Invariant, ImportTarget, ToInt32;
    forall i {
      NamedImportIs(p, e, f, i, token);
    }
    forall i ensures ImportsAs(p, e, f, i, token) <==> ImportsAs(p, q, f, i, token) {}
    if i :| i < |e.imports| && ImportCounts(e, f, i) && ImportToken(e, i) == token {
      NamedImportIs(p, e, f, i, token);
      assert ImportsAs(p, q, f, i, token);
    }
    if i :| ImportsAs(p, q, f, i, token) {
      NamedImportIs(p, e, f, i, token);
    }
  }

  // ------------------------------------------------------------------
  // Directories

  /** An edge between directories: an empty range naming one of the new directories' symbols. */
  predicate IsEdge(ref: RefInfo, first: int, count: nat) {
    first <= ref.toSymbolLocalId < first + count && ref == RefInfo(ref.toSymbolLocalId, 0, 0, None)
  }

  predicate AreEdges(refs: seq<RefInfo>, first: int, count: nat) {
    forall k | 0 <= k < |refs| :: IsEdge(refs[k], first, count)
  }

  lemma {:induction false} ChildRefsAreEdgesOnly(
      up: string -> string, dirs: seq<string>, first: int, dir: string, children: seq<string>)
    ensures AreEdges(ChildRefs(up, dirs, first, dir, children), first, |dirs|)
    decreases |children|
  {
    if |children| > 0 {
      ChildRefsAreEdgesOnly(up, dirs, first, dir, children[..|children| - 1]);
    }
  }

  /** The sentinels' references are edges between directories and nothing else. */
  lemma SentinelsHoldEdges(p: Project, dirs: seq<string>, files: seq<int>, children: seq<string>, i: nat)
    requires FilesAgree(p.files, p.objects) && !p.directoriesCreated && Ranges(p, dirs, files, children) && i < |dirs|
    ensures var q := CreateDirectorySymbols(p, dirs, files, children);
            && |q.objects| == |p.objects| + |dirs|
            && AreEdges(q.objects[|p.objects| + i].refs, |p.symbols.list| + 1, |dirs|)
  {
    hide DirsOf, Enumerates, DirIndex, WithDirectories, Sentinels, ChildRefs, ParentDir, FilesAgree, IsEdge,
      CreateDirectorySymbols, AreEdges;
    CreatedObjects(p, dirs, files, children);
    RangesOnce(p, dirs, files, children);
    FilesAreObjects(p, files);
    SentinelAfter(ParentDir, p.objects, DirOfFiles(p.files.pathByID), |p.symbols.list| + 1, dirs, files, children, i);
    ChildRefsAreEdgesOnly(ParentDir, dirs, |p.symbols.list| + 1, dirs[i], children);
  }

  /** What creating the directories leaves alone: the tables, the logs, the modules and all objects but files. */
  lemma DirectoriesTouch(p: Project, dirs: seq<string>, files: seq<int>, children: seq<string>, o: nat)
    requires !p.directoriesCreated && |dirs| > 0 && Ranges(p, dirs, files, children)
    requires o < |p.objects| && o + 1 !in p.files.pathByID
    ensures var q := CreateDirectorySymbols(p, dirs, files, children);
            && q.objects[o] == p.objects[o] && p.symbols.list <= q.symbols.list
            && q == p.(symbols := p.symbols.(list := q.symbols.list), objects := q.objects, directoriesCreated := true)
  {
    hide DirsOf, Enumerates, DirIndex, WithDirectories, ParentDir;
    CreatedObjects(p, dirs, files, children);
    RangesOnce(p, dirs, files, children);
    NoFileIsListed(p, files, o + 1);
    OtherAfter(ParentDir, p.objects, DirOfFiles(p.files.pathByID), |p.symbols.list| + 1, dirs, files, children, o);
  }

  lemma NoFileIsListed(p: Project, files: seq<int>, id: int)
    requires Enumerates(files, p.files.pathByID.Keys) && id !in p.files.pathByID
    ensures id !in files
  {}

  /** What the step leaves in an object that is no file. */
  lemma OtherAfter(
      up: string -> string, objects: seq<ObjectRec>, dirOf: map<int, string>, firstSymbol: int,
      dirs: seq<string>, files: seq<int>, children: seq<string>, o: int)
    requires forall a, b | 0 <= a < b < |dirs| :: dirs[a] != dirs[b]
    requires forall i, j | 0 <= i < j < |files| :: files[i] != files[j]
    requires 0 <= o < |objects| && o + 1 !in files
    ensures WithDirectories(up, objects, dirOf, firstSymbol, dirs, files, children)[o] == objects[o]
  {
    var a := objects + Sentinels(firstSymbol, dirs);
    var b := WithDirInstances(a, dirOf, dirs, firstSymbol, files);
    DirInstancesAt(a, dirOf, dirs, firstSymbol, files, o);
    DirRefsAt(up, b, dirs, firstSymbol, |objects| + 1, children, o);
  }
}
