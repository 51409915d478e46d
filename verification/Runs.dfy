/** Whole runs of the index: any producer calls in any order, finalised any number of times. */
module Runs {
  import opened Collections
  import opened Entities
  import opened Paths
  import opened Store
  import opened StoreInvariant
  import opened StoreSteps
  import opened Finalise
  import opened Shape
  import opened ShapeSteps
  import opened Directories

  /** The calls; the last two carry the orders in which maps happen to be ranged over. */
  datatype Op =
    | CallAddModule(name: string)
    | CallAddModuleImport(imp: ModuleImport)
    | CallAddFile(moduleId: Option<int>, path: string, content: seq<int>, instanceType: InstanceType)
    | CallAddSymbol(call: SymbolCall)
    | CallAddReference(ref: Reference)
    | CallResolveReferences
    | CallCreateModules(modules: seq<int>)
    | CallMarshal(modules: seq<int>, dirs: seq<string>, files: seq<int>, children: seq<string>)

  /** The orders are complete enumerations. */
  ghost predicate Possible(p: Project, op: Op) {
    match op
    case CallCreateModules(modules) => Enumerates(modules, p.modules.byID.Keys)
    case CallMarshal(modules, dirs, files, children) =>
      Enumerates(modules, p.modules.byID.Keys) && Ranges(p, dirs, files, children)
    case _ => true
  }

  /** The project after a call; a rejected call changes nothing. */
  ghost function Apply(p: Project, op: Op): Project
    requires Possible(p, op)
  {
    match op
    case CallAddModule(name) => AddModule(p, name).0
    case CallAddModuleImport(imp) => p.(imports := p.imports + [imp])
    case CallAddFile(moduleId, path, content, instanceType) =>
      var r := AddFile(p, moduleId, path, content, instanceType);
      if r.Added? then r.project else p
    case CallAddSymbol(call) =>
      var r := AddSymbol(p, call);
      if r.AddedSymbol? then r.project else p
    case CallAddReference(ref) =>
      var r := AddReference(p, ref);
      if r.Added? then r.project else p
    case CallResolveReferences => ResolveReferences(p)
    case CallCreateModules(modules) => CreateModuleSymbols(p, modules)
    case CallMarshal(modules, dirs, files, children) =>
      CreateDirectorySymbols(CreateModuleSymbols(p, modules), dirs, files, children)
  }

  // ------------------------------------------------------------------
  // The invariant over every run

  ghost predicate Sound(p: Project) {
    Invariant(p) && Shaped(p)
  }

  lemma LogsKeep(p: Project, q: Project)
    requires Sound(p) && q == p.(references := q.references, imports := q.imports)
    ensures Sound(q) && KeepsFiles(p, q)
  {
    SameInstancesKeep(p, q);
  }

  lemma CreateModulesKeep(p: Project, modules: seq<int>)
    requires Sound(p) && forall m | m in modules :: m in p.modules.byID
    ensures Sound(CreateModuleSymbols(p, modules)) && KeepsFiles(p, CreateModuleSymbols(p, modules))
  {
    var q := CreateEachModule(p, modules);
    var objects := ResolveImports(q, |q.imports|).objects;
    CreateModuleSymbolsKeeps(p, modules);
    CreateEachModuleKeeps(p, modules);
    CreateEachModuleShaped(p, modules);
    CreateEachModuleFiles(p, modules);
    ResolveImportsKeeps(q, |q.imports|);
    RefsShaped(q, objects);
    var r := q.(objects := objects);
    assert Shaped(r) && KeepsFiles(q, r);
    KeepsTransitive(p, q, r);
    ImportsCleared(p, r);
  }

  /** Clearing the import log touches no file. */
  lemma ImportsCleared(p: Project, r: Project)
    requires KeepsFiles(p, r) && Shaped(r)
    ensures KeepsFiles(p, r.(imports := [])) && Shaped(r.(imports := []))
  {
    var q := r.(imports := []);
    forall f | f in p.files.pathByID
      ensures FileIsShaped(q, f) && (HasModule(p, f) ==> HasModule(q, f)) && (HasDirectory(p, f) ==> HasDirectory(q, f))
    {
      assert FileIsShaped(r, f);
    }
    forall f | f in q.files.pathByID ensures FileIsShaped(q, f) {
      assert FileIsShaped(r, f);
    }
  }

  lemma CreateDirectoriesKeep(p: Project, dirs: seq<string>, files: seq<int>, children: seq<string>)
    requires Sound(p) && Ranges(p, dirs, files, children)
    ensures var q := CreateDirectorySymbols(p, dirs, files, children); Sound(q) && KeepsFiles(p, q)
  {
    CreateDirectorySymbolsKeeps(p, dirs, files, children);
    if p.directoriesCreated || |dirs| == 0 {
      SameInstancesKeep(p, p);
    } else {
      CreateDirectorySymbolsShaped(p, dirs, files, children);
    }
  }

  lemma ResolveKeeps(p: Project)
    requires Sound(p)
    ensures Sound(ResolveReferences(p)) && KeepsFiles(p, ResolveReferences(p))
  {
    var m := FirstFailure(p, 0);
    var objects := ResolveLog(p, m).objects;
    ResolveReferencesKeeps(p, m);
    ResolveLogKeeps(p, m);
    SameInstancesKeep(p, ResolveReferences(p));
  }

  lemma AddFileStep(p: Project, moduleId: Option<int>, path: string, content: seq<int>, instanceType: InstanceType)
    requires Sound(p) && AddFile(p, moduleId, path, content, instanceType).Added?
    ensures var q := AddFile(p, moduleId, path, content, instanceType).project; Sound(q) && KeepsFiles(p, q)
  {
    AddFileKeeps(p, moduleId, path, content, instanceType);
    if path in p.files.idByPath {
      SameInstancesKeep(p, p);
    } else {
      AddFileShaped(p, moduleId, path, content, instanceType);
    }
  }

  lemma MarshalStep(p: Project, modules: seq<int>, dirs: seq<string>, files: seq<int>, children: seq<string>)
    requires Sound(p) && Enumerates(modules, p.modules.byID.Keys) && Ranges(p, dirs, files, children)
    ensures var q := CreateDirectorySymbols(CreateModuleSymbols(p, modules), dirs, files, children);
            Sound(q) && KeepsFiles(p, q) && q.files == p.files
  {
    CreateModulesKeep(p, modules);
    CreateEachModuleFiles(p, modules);
    var q := CreateModuleSymbols(p, modules);
    CreateDirectoriesKeep(q, dirs, files, children);
    KeepsTransitive(p, q, CreateDirectorySymbols(q, dirs, files, children));
  }

  /** Every call keeps the invariant and the shape of every file. */
  lemma StepKeeps(p: Project, op: Op)
    requires Sound(p) && Possible(p, op)
    ensures Sound(Apply(p, op)) && KeepsFiles(p, Apply(p, op))
  {
    match op
    case CallAddModule(name) =>
      AddModuleKeeps(p, name);
      AddModuleShaped(p, name);
    case CallAddModuleImport(imp) => LogsKeep(p, Apply(p, op));
    case CallAddFile(moduleId, path, content, instanceType) =>
      if AddFile(p, moduleId, path, content, instanceType).Added? {
        AddFileStep(p, moduleId, path, content, instanceType);
      } else {
        SameInstancesKeep(p, p);
      }
    case CallAddSymbol(call) =>
      if Accepts(p, call) {
        AddSymbolKeeps(p, call);
        AddSymbolShaped(p, call);
      } else {
        SameInstancesKeep(p, p);
      }
    case CallAddReference(ref) => LogsKeep(p, Apply(p, op));
    case CallResolveReferences => ResolveKeeps(p);
    case CallCreateModules(modules) => CreateModulesKeep(p, modules);
    case CallMarshal(modules, dirs, files, children) => MarshalStep(p, modules, dirs, files, children);
  }

  ghost predicate IsStep(p: Project, op: Op, q: Project) {
    Possible(p, op) && q == Apply(p, op)
  }

  /** The projects along a run of calls, from a fresh index. */
  ghost predicate IsRun(projects: seq<Project>, calls: seq<Op>) {
    && |projects| == |calls| + 1 && projects[0] == EMPTY
    && forall i, j {:trigger IsStep(projects[i], calls[i], projects[j])} | 0 <= i && j == i + 1 < |projects| ::
         IsStep(projects[i], calls[i], projects[j])
  }

  lemma StepOfRun(projects: seq<Project>, calls: seq<Op>, i: nat)
    requires IsRun(projects, calls) && i < |calls|
    ensures IsStep(projects[i], calls[i], projects[i + 1])
  {
    var j := i + 1;
    assert IsStep(projects[i], calls[i], projects[j]);
  }

  lemma StepIsSound(p: Project, op: Op, q: Project)
    requires Sound(p) && IsStep(p, op, q)
    ensures Sound(q)
  {
    StepKeeps(p, op);
  }

  /** Whatever was called, ids, slots and caches agree. */
  lemma {:induction false} EveryRunIsSound(projects: seq<Project>, calls: seq<Op>, i: nat)
    requires IsRun(projects, calls) && i < |projects|
    ensures Sound(projects[i])
  {
    if i == 0 {
      EmptyKeeps();
    } else {
      StepOfRun(projects, calls, i - 1);
      EveryRunIsSound(projects, calls, i - 1);
      StepIsSound(projects[i - 1], calls[i - 1], projects[i]);
    }
  }

  /** One call more. */
  lemma ExtendRun(projects: seq<Project>, calls: seq<Op>, op: Op) returns (longer: seq<Project>, all: seq<Op>)
    requires IsRun(projects, calls) && Possible(projects[|calls|], op)
    ensures longer == projects + [Apply(projects[|calls|], op)] && all == calls + [op] && IsRun(longer, all)
  {
    hide Possible, Apply;
    all := calls + [op];
    longer := projects + [Apply(projects[|calls|], op)];
    forall i, j | 0 <= i && j == i + 1 < |longer| ensures IsStep(longer[i], all[i], longer[j]) {
      if j < |projects| {
        assert IsStep(projects[i], calls[i], projects[j]);
      }
    }
  }

  /** A Marshal that ranges over the maps in some order. */
  lemma SomeMarshal(p: Project) returns (op: Op)
    ensures op.CallMarshal? && Possible(p, op)
  {
    hide DirsOf;
    var modules := SomeOrder(p.modules.byID.Keys);
    var dirs := SomeOrder(DirsOf(p.files.pathByID.Values));
    var files := SomeOrder(p.files.pathByID.Keys);
    op := CallMarshal(modules, dirs, files, dirs);
  }
}
