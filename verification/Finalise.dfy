/**
 Finalising the project keeps the store's invariant: resolving references and imports,
 and creating the module and directory symbols, in whatever order the maps are ranged over.
 */
module Finalise {
  import opened Containment
  import opened Entities
  import opened Paths
  import opened Store
  import opened StoreInvariant
  import opened StoreSteps

  // ------------------------------------------------------------------
  // References and imports

  /** `b` is `a` with more references on its objects, all naming known symbols. */
  ghost predicate OnlyRefsAdded(a: seq<ObjectRec>, b: seq<ObjectRec>) {
    && |a| == |b|
    && forall o {:trigger a[o]} {:trigger b[o]} | 0 <= o < |a| ::
         b[o].insts == a[o].insts && b[o].content == a[o].content && b[o].path == a[o].path && a[o].refs <= b[o].refs
  }

  lemma RefAdded(count: nat, a: seq<ObjectRec>, b: seq<ObjectRec>, id: int, ref: RefInfo)
    requires OnlyRefsAdded(a, b) && AllNamed(count, b) && 0 < ref.toSymbolLocalId <= count
    ensures OnlyRefsAdded(a, WithRef(b, id, ref)) && AllNamed(count, WithRef(b, id, ref))
  {
    var r := WithRef(b, id, ref);
    forall o | 0 <= o < |r| ensures NamesKnown(count, r[o]) {
      assert NamesKnown(count, b[o]);
    }
  }

  lemma {:induction false} ResolveLogKeeps(p: Project, m: nat)
    requires SymbolsAgree(p.symbols) && AllNamed(|p.symbols.list|, p.objects) && m <= |p.references|
    ensures OnlyRefsAdded(p.objects, ResolveLog(p, m).objects)
    ensures AllNamed(|p.symbols.list|, ResolveLog(p, m).objects)
  {
    if m > 0 {
      ResolveLogKeeps(p, m - 1);
      var ref := p.references[m - 1];
      if IsResolvable(p, ref) {
        assert IsDeclared(p.symbols, p.symbols.byFileAndName[Target(ref)]);
        RefAdded(|p.symbols.list|, p.objects, ResolveLog(p, m - 1).objects, ref.fromFile, ResolvedRef(p, ref));
      }
    }
  }

  lemma {:induction false} ResolveImportsKeeps(p: Project, m: nat)
    requires ModulesAgree(p.modules, p.files.pathByID.Keys, p.symbols.list)
    requires AllNamed(|p.symbols.list|, p.objects) && m <= |p.imports|
    ensures OnlyRefsAdded(p.objects, ResolveImports(p, m).objects)
    ensures AllNamed(|p.symbols.list|, ResolveImports(p, m).objects)
  {
    if m > 0 {
      ResolveImportsKeeps(p, m - 1);
      var imp := p.imports[m - 1];
      var target := ImportTarget(p, imp);
      if target != 0 {
        assert ModuleAgrees(p.modules, p.files.pathByID.Keys, p.symbols.list, p.modules.byName[imp.toModuleName]);
        RefAdded(|p.symbols.list|, p.objects, ResolveImports(p, m - 1).objects, imp.fromFileID,
                 RefInfo(target, ToInt32(imp.start), ToInt32(imp.end), None));
      }
    }
  }

  /** New objects in place of old ones, with longer lists of known names. */
  lemma GrownObjectsKeep(p: Project, objects: seq<ObjectRec>)
    requires Invariant(p) && ObjectsGrow(p.objects, objects) && AllNamed(|p.symbols.list|, objects)
    ensures Invariant(p.(objects := objects))
  {
    GrowKeepsFiles(p.files, p.objects, objects);
    GrowKeepsInstances(p, p.(objects := objects));
  }

  /** A resolution of the first `m` log entries; on success it is all of them and the log is cleared. */
  lemma ResolveReferencesKeeps(p: Project, m: nat)
    requires Invariant(p) && m <= |p.references|
    ensures Invariant(p.(objects := ResolveLog(p, m).objects))
    ensures Invariant(p.(objects := ResolveLog(p, m).objects, references := []))
  {
    ResolveLogKeeps(p, m);
    GrownObjectsKeep(p, ResolveLog(p, m).objects);
  }

  // ------------------------------------------------------------------
  // Module symbols

  lemma {:induction false} ModuleInstancesGrow(
      count: nat, objects: seq<ObjectRec>, known: set<int>, symbolID: int, files: seq<int>)
    requires AllNamed(count, objects) && 0 < symbolID <= count
    ensures ObjectsGrow(objects, WithModuleInstances(objects, known, symbolID, files))
    ensures AllNamed(count, WithModuleInstances(objects, known, symbolID, files))
    decreases |files|
  {
    if |files| > 0 {
      ModuleInstancesGrow(count, objects, known, symbolID, files[..|files| - 1]);
      var before := WithModuleInstances(objects, known, symbolID, files[..|files| - 1]);
      var id := files[|files| - 1];
      if id in known && 0 < id <= |before| {
        var info := WholeInstance(symbolID, InstanceType.Containment, |before[id - 1].content|);
        WithInstanceGrows(before, id, info);
        WithInstanceNamed(count, before, id, info);
      }
    }
  }

  lemma AppendedSymbolsKeep(p: Project, more: seq<Symbol>)
    requires Invariant(p)
    requires forall i | 0 <= i < |more| :: more[i].localId == |p.symbols.list| + 1 + i
    ensures Invariant(p.(symbols := p.symbols.(list := p.symbols.list + more)))
  {
    var t := p.symbols.(list := p.symbols.list + more);
    assert SymbolsGrow(p.symbols, t);
    GrownSymbolsKeep(p, t);
  }

  lemma CreateModuleSymbolKeeps(p: Project, m: int)
    requires Invariant(p) && m in p.modules.byID
    ensures Invariant(CreateModuleSymbol(p, m))
  {
    var info := p.modules.byID[m];
    if info.symbolID == 0 {
      var id := |p.symbols.list| + 1;
      var more := [Symbol(id, info.name, NoScope, Module)];
      AppendedSymbolsKeep(p, more);
      var q := p.(symbols := p.symbols.(list := p.symbols.list + more));
      var objects := WithModuleInstances(p.objects, p.files.pathByID.Keys, id, info.fileIDs);
      ModuleInstancesGrow(|q.symbols.list|, q.objects, p.files.pathByID.Keys, id, info.fileIDs);
      GrownObjectsKeep(q, objects);
      var r := q.(objects := objects);
      ModuleSymbolSet(r.modules, r.files.pathByID.Keys, r.symbols.list, m, id);
      assert CreateModuleSymbol(p, m) == r.(modules := r.modules.(byID := r.modules.byID[m := info.(symbolID := id)]));
    }
  }

  lemma ModuleSymbolSet(t: ModuleTable, fileIDs: set<int>, list: seq<Symbol>, m: int, id: int)
    requires ModulesAgree(t, fileIDs, list) && m in t.byID
    requires 0 < id <= |list| && list[id - 1].kind == Module && list[id - 1].name == t.byID[m].name
    ensures ModulesAgree(t.(byID := t.byID[m := t.byID[m].(symbolID := id)]), fileIDs, list)
  {
    var u := t.(byID := t.byID[m := t.byID[m].(symbolID := id)]);
    forall k | k in u.byID ensures ModuleAgrees(u, fileIDs, list, k) {
      assert ModuleAgrees(t, fileIDs, list, k);
    }
  }

  lemma {:induction false} CreateEachModuleKeeps(p: Project, modules: seq<int>)
    requires Invariant(p) && forall m | m in modules :: m in p.modules.byID
    ensures Invariant(CreateEachModule(p, modules))
    decreases |modules|
  {
    if |modules| > 0 {
      CreateEachModuleKeeps(p, modules[..|modules| - 1]);
      CreateModuleSymbolKeeps(CreateEachModule(p, modules[..|modules| - 1]), modules[|modules| - 1]);
    }
  }

  lemma CreateModuleSymbolsKeeps(p: Project, modules: seq<int>)
    requires Invariant(p) && forall m | m in modules :: m in p.modules.byID
    ensures Invariant(CreateModuleSymbols(p, modules))
  {
    var q := CreateEachModule(p, modules);
    CreateEachModuleKeeps(p, modules);
    ResolveImportsKeeps(q, |q.imports|);
    GrownObjectsKeep(q, ResolveImports(q, |q.imports|).objects);
  }

  // ------------------------------------------------------------------
  // Directory symbols

  lemma {:induction false} DirInstancesGrow(
      count: nat, objects: seq<ObjectRec>, dirOf: map<int, string>, dirs: seq<string>, first: int, files: seq<int>)
    requires AllNamed(count, objects) && 0 < first && first + |dirs| <= count + 1
    ensures ObjectsGrow(objects, WithDirInstances(objects, dirOf, dirs, first, files))
    ensures AllNamed(count, WithDirInstances(objects, dirOf, dirs, first, files))
    decreases |files|
  {
    if |files| > 0 {
      DirInstancesGrow(count, objects, dirOf, dirs, first, files[..|files| - 1]);
      var before := WithDirInstances(objects, dirOf, dirs, first, files[..|files| - 1]);
      var id := files[|files| - 1];
      if id in dirOf && 0 < id <= |before| && DirIndex(dirs, dirOf[id]) >= 0 {
        var info := WholeInstance(first + DirIndex(dirs, dirOf[id]), InstanceType.Containment,
                                  |before[id - 1].content|);
        WithInstanceGrows(before, id, info);
        WithInstanceNamed(count, before, id, info);
      }
    }
  }

  lemma {:induction false} DirRefsAdded(
      up: string -> string, count: nat, objects: seq<ObjectRec>, dirs: seq<string>, firstSymbol: int, firstObject: int,
      children: seq<string>)
    requires AllNamed(count, objects) && 0 < firstSymbol && firstSymbol + |dirs| <= count + 1
    ensures OnlyRefsAdded(objects, WithDirRefs(up, objects, dirs, firstSymbol, firstObject, children))
    ensures AllNamed(count, WithDirRefs(up, objects, dirs, firstSymbol, firstObject, children))
    decreases |children|
  {
    if |children| > 0 {
      DirRefsAdded(up, count, objects, dirs, firstSymbol, firstObject, children[..|children| - 1]);
      var before := WithDirRefs(up, objects, dirs, firstSymbol, firstObject, children[..|children| - 1]);
      var child := children[|children| - 1];
      if up(child) != child && DirIndex(dirs, child) >= 0 && DirIndex(dirs, up(child)) >= 0 {
        RefAdded(count, objects, before, firstObject + DirIndex(dirs, up(child)),
                 RefInfo(firstSymbol + DirIndex(dirs, child), 0, 0, None));
      }
    }
  }

  lemma SentinelsNamed(count: nat, objects: seq<ObjectRec>, dirs: seq<string>, first: int)
    requires AllNamed(count, objects) && 0 < first && first + |dirs| <= count + 1
    ensures AllNamed(count, objects + Sentinels(first, dirs))
    ensures ObjectsGrow(objects, objects + Sentinels(first, dirs))
  {
    var all := objects + Sentinels(first, dirs);
    forall o | 0 <= o < |all| ensures NamesKnown(count, all[o]) {
      if o < |objects| {
        assert NamesKnown(count, objects[o]);
      } else {
        var i := o - |objects|;
        assert all[o] == Sentinels(first, dirs)[i];
        assert all[o].insts == [WholeInstance(first + i, InstanceType.Sentinel, 0)];
      }
    }
  }

  lemma GrowTransitive(a: seq<ObjectRec>, b: seq<ObjectRec>, c: seq<ObjectRec>)
    requires ObjectsGrow(a, b) && (ObjectsGrow(b, c) || OnlyRefsAdded(b, c))
    ensures ObjectsGrow(a, c)
  {
    forall o | 0 <= o < |a| ensures c[o].content == a[o].content && c[o].path == a[o].path && a[o].insts <= c[o].insts {
      assert b[o].content == a[o].content && a[o].insts <= b[o].insts;
    }
  }

  lemma DirectoriesGrow(
      up: string -> string, count: nat, objects: seq<ObjectRec>, dirOf: map<int, string>, first: int,
      dirs: seq<string>, files: seq<int>, children: seq<string>)
    requires AllNamed(count, objects) && 0 < first && first + |dirs| <= count + 1
    ensures ObjectsGrow(objects, WithDirectories(up, objects, dirOf, first, dirs, files, children))
    ensures AllNamed(count, WithDirectories(up, objects, dirOf, first, dirs, files, children))
  {
    var a := objects + Sentinels(first, dirs);
    SentinelsNamed(count, objects, dirs, first);
    DirInstancesGrow(count, a, dirOf, dirs, first, files);
    var b := WithDirInstances(a, dirOf, dirs, first, files);
    DirRefsAdded(up, count, b, dirs, first, |objects| + 1, children);
    GrowTransitive(objects, a, b);
    GrowTransitive(objects, b, WithDirectories(up, objects, dirOf, first, dirs, files, children));
  }

  lemma CreateDirectorySymbolsKeeps(p: Project, dirs: seq<string>, files: seq<int>, children: seq<string>)
    requires Invariant(p)
    ensures Invariant(CreateDirectorySymbols(p, dirs, files, children))
  {
    if !p.directoriesCreated && |dirs| > 0 {
      var first := |p.symbols.list| + 1;
      AppendedSymbolsKeep(p, DirSymbols(first, dirs));
      var q := p.(symbols := p.symbols.(list := p.symbols.list + DirSymbols(first, dirs)));
      var dirOf := DirOfFiles(p.files.pathByID);
      GrowKeepsNamed(|p.symbols.list|, |q.symbols.list|, p.objects);
      DirectoriesGrow(ParentDir, |q.symbols.list|, p.objects, dirOf, first, dirs, files, children);
      var objects := WithDirectories(ParentDir, p.objects, dirOf, first, dirs, files, children);
      GrownObjectsKeep(q, objects);
      assert CreateDirectorySymbols(p, dirs, files, children) == q.(objects := objects, directoriesCreated := true);
    }
  }
}
