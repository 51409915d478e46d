/** No call takes anything out of an object, and no instance that any call adds is folded. */
module Growth {
  import opened Containment
  import opened Forest
  import opened Entities
  import opened Numbering
  import opened Guarantees
  import opened Paths
  import opened Store
  import opened StoreInvariant
  import opened Finalise
  import opened Shape
  import opened Directories
  import opened Runs
  import opened Determined

  /** Everything stays where it is, and what comes behind it among the instances is not folded. */
  predicate GrowsFrom(a: ObjectRec, b: ObjectRec) {
    && b.path == a.path && b.content == a.content && a.insts <= b.insts && a.refs <= b.refs
    && forall k | |a.insts| <= k < |b.insts| :: !b.insts[k].folded
  }

  predicate IsPlain(o: ObjectRec) {
    forall k | 0 <= k < |o.insts| :: !o.insts[k].folded
  }

  /** The same of all objects; those that are new have no folded instance at all. */
  ghost predicate GrowPlainly(a: seq<ObjectRec>, b: seq<ObjectRec>) {
    && |a| <= |b|
    && (forall o {:trigger a[o]} {:trigger b[o]} | 0 <= o < |a| :: GrowsFrom(a[o], b[o]))
    && (forall o | |a| <= o < |b| :: IsPlain(b[o]))
  }

  lemma GrowPlainlyTwice(a: seq<ObjectRec>, b: seq<ObjectRec>, c: seq<ObjectRec>)
    requires GrowPlainly(a, b) && GrowPlainly(b, c)
    ensures GrowPlainly(a, c)
  {
    forall o | 0 <= o < |a| ensures GrowsFrom(a[o], c[o]) {
      assert GrowsFrom(a[o], b[o]) && GrowsFrom(b[o], c[o]);
    }
    forall o | |a| <= o < |c| ensures IsPlain(c[o]) {
      if o < |b| {
        assert IsPlain(b[o]) && GrowsFrom(b[o], c[o]);
      }
    }
  }

  lemma SameObjectsGrow(a: seq<ObjectRec>)
    ensures GrowPlainly(a, a)
  {}

  lemma InstanceGrows(a: seq<ObjectRec>, id: int, info: InstanceInfo)
    requires !info.folded
    ensures GrowPlainly(a, WithInstance(a, id, info))
  {}

  lemma RefsGrow(a: seq<ObjectRec>, b: seq<ObjectRec>)
    requires OnlyRefsAdded(a, b)
    ensures GrowPlainly(a, b)
  {}

  lemma {:induction false} ModuleInstancesArePlain(
      objects: seq<ObjectRec>, known: set<int>, symbolID: int, files: seq<int>)
    ensures GrowPlainly(objects, WithModuleInstances(objects, known, symbolID, files))
    decreases |files|
  {
    hide GrowPlainly, WithInstance;
    if |files| == 0 {
      SameObjectsGrow(objects);
    } else {
      var before := WithModuleInstances(objects, known, symbolID, files[..|files| - 1]);
      var id := files[|files| - 1];
      ModuleInstancesArePlain(objects, known, symbolID, files[..|files| - 1]);
      if id in known && 0 < id <= |before| {
        var info := WholeInstance(symbolID, InstanceType.Containment, |before[id - 1].content|);
        InstanceGrows(before, id, info);
        GrowPlainlyTwice(objects, before, WithInstance(before, id, info));
      }
    }
  }

  lemma {:induction false} EachModuleGrows(p: Project, modules: seq<int>)
    requires forall m | m in modules :: m in p.modules.byID
    ensures GrowPlainly(p.objects, CreateEachModule(p, modules).objects)
    decreases |modules|
  {
    hide GrowPlainly, WithModuleInstances;
    if |modules| == 0 {
      SameObjectsGrow(p.objects);
    } else {
      var rest, m := modules[..|modules| - 1], modules[|modules| - 1];
      var before := CreateEachModule(p, rest);
      EachModuleGrows(p, rest);
      SameObjectsGrow(before.objects);
      ModuleInstancesArePlain(before.objects, before.files.pathByID.Keys, |before.symbols.list| + 1,
                              before.modules.byID[m].fileIDs);
      GrowPlainlyTwice(p.objects, before.objects, CreateEachModule(p, modules).objects);
    }
  }

  lemma ModulesGrow(p: Project, modules: seq<int>)
    requires Sound(p) && forall m | m in modules :: m in p.modules.byID
    ensures GrowPlainly(p.objects, CreateModuleSymbols(p, modules).objects)
  {
    hide GrowPlainly, CreateEachModule, ResolveImports, Shaped;
    var q := CreateEachModule(p, modules);
    EachModuleGrows(p, modules);
    CreateEachModuleKeeps(p, modules);
    ResolveImportsKeeps(q, |q.imports|);
    RefsGrow(q.objects, ResolveImports(q, |q.imports|).objects);
    GrowPlainlyTwice(p.objects, q.objects, CreateModuleSymbols(p, modules).objects);
  }

  lemma {:induction false} DirInstancesArePlain(
      objects: seq<ObjectRec>, dirOf: map<int, string>, dirs: seq<string>, first: int, files: seq<int>)
    ensures GrowPlainly(objects, WithDirInstances(objects, dirOf, dirs, first, files))
    decreases |files|
  {
    hide GrowPlainly, WithInstance, DirIndex;
    if |files| == 0 {
      SameObjectsGrow(objects);
    } else {
      var before := WithDirInstances(objects, dirOf, dirs, first, files[..|files| - 1]);
      var id := files[|files| - 1];
      DirInstancesArePlain(objects, dirOf, dirs, first, files[..|files| - 1]);
      SameObjectsGrow(before);
      if id in dirOf && 0 < id <= |before| && DirIndex(dirs, dirOf[id]) >= 0 {
        InstanceGrows(before, id, WholeInstance(first + DirIndex(dirs, dirOf[id]), InstanceType.Containment,
                                                |before[id - 1].content|));
      }
      GrowPlainlyTwice(objects, before, WithDirInstance(before, dirOf, dirs, first, id));
    }
  }

  lemma SentinelsArePlain(objects: seq<ObjectRec>, first: int, dirs: seq<string>)
    ensures GrowPlainly(objects, objects + Sentinels(first, dirs))
  {
    var all := objects + Sentinels(first, dirs);
    forall o | |objects| <= o < |all| ensures IsPlain(all[o]) {
      var i := o - |objects|;
      assert all[o] == Sentinels(first, dirs)[i];
      assert all[o].insts == [WholeInstance(first + i, InstanceType.Sentinel, 0)];
    }
  }

  lemma DirectoriesAreGrowing(p: Project, dirs: seq<string>, files: seq<int>, children: seq<string>)
    requires Sound(p)
    ensures GrowPlainly(p.objects, CreateDirectorySymbols(p, dirs, files, children).objects)
  {
    hide GrowPlainly, WithDirInstances, WithDirRefs, Sentinels, Shaped, DirIndex, ParentDir;
    SameObjectsGrow(p.objects);
    if !p.directoriesCreated && |dirs| > 0 {
      var first := |p.symbols.list| + 1;
      CreatedObjects(p, dirs, files, children);
      var dirOf := DirOfFiles(p.files.pathByID);
      var a := p.objects + Sentinels(first, dirs);
      SentinelsArePlain(p.objects, first, dirs);
      var b := WithDirInstances(a, dirOf, dirs, first, files);
      DirInstancesArePlain(a, dirOf, dirs, first, files);
      DirRefsOnly(p, dirs, files, children, b);
      GrowPlainlyTwice(p.objects, a, b);
      GrowPlainlyTwice(p.objects, b, WithDirRefs(ParentDir, b, dirs, first, |p.objects| + 1, children));
    }
  }

  lemma DirRefsOnly(p: Project, dirs: seq<string>, files: seq<int>, children: seq<string>, b: seq<ObjectRec>)
    requires Sound(p)
    requires b == WithDirInstances(p.objects + Sentinels(|p.symbols.list| + 1, dirs), DirOfFiles(p.files.pathByID),
                                   dirs, |p.symbols.list| + 1, files)
    ensures GrowPlainly(b, WithDirRefs(ParentDir, b, dirs, |p.symbols.list| + 1, |p.objects| + 1, children))
  {
    hide GrowPlainly, WithDirInstances, WithDirRefs, Sentinels, Shaped, ParentDir, DirOfFiles;
    var first, count := |p.symbols.list| + 1, |p.symbols.list| + |dirs|;
    var a := p.objects + Sentinels(first, dirs);
    GrowKeepsNamed(|p.symbols.list|, count, p.objects);
    SentinelsNamed(count, p.objects, dirs, first);
    DirInstancesGrow(count, a, DirOfFiles(p.files.pathByID), dirs, first, files);
    DirRefsAdded(ParentDir, count, b, dirs, first, |p.objects| + 1, children);
    RefsGrow(b, WithDirRefs(ParentDir, b, dirs, first, |p.objects| + 1, children));
  }

  lemma AddSymbolGrows(p: Project, c: SymbolCall)
    requires Accepts(p, c)
    ensures GrowPlainly(p.objects, AddSymbol(p, c).project.objects)
  {
    hide GrowPlainly, WithInstance, WithDeclared, NamedSymbol;
    var (named, symbolID) := NamedSymbol(p.symbols, p.files.pathByID[c.fileId], c);
    var (start, end) := ClampedExtent(c.start, c.end, |p.objects[c.fileId - 1].content|);
    SameObjectsGrow(p.objects);
    InstanceGrows(p.objects, c.fileId, DeclaredInfo(c, symbolID, start, end));
  }

  /** Every call only adds, and adds nothing folded. */
  lemma StepGrows(p: Project, op: Op)
    requires Sound(p) && Possible(p, op)
    ensures GrowPlainly(p.objects, Apply(p, op).objects)
  {
    hide GrowPlainly, AddSymbol, CreateModuleSymbols, CreateDirectorySymbols, ResolveLog, FirstFailure, Shaped, Sound,
      Ranges;
    SameObjectsGrow(p.objects);
    match op
    case CallAddFile(moduleId, path, content, instanceType) => AddFileGrows(p, moduleId, path, content, instanceType);
    case CallAddSymbol(call) =>
      if Accepts(p, call) {
        AddSymbolGrows(p, call);
      }
    case CallResolveReferences => ResolvingGrows(p);
    case CallCreateModules(modules) => ModulesGrow(p, modules);
    case CallMarshal(modules, dirs, files, children) =>
      var q := CreateModuleSymbols(p, modules);
      ModulesGrow(p, modules);
      CreateModulesKeep(p, modules);
      DirectoriesAreGrowing(q, dirs, files, children);
      GrowPlainlyTwice(p.objects, q.objects, CreateDirectorySymbols(q, dirs, files, children).objects);
    case _ =>
  }

  lemma AddFileGrows(p: Project, moduleId: Option<int>, path: string, content: seq<int>, instanceType: InstanceType)
    ensures var r := AddFile(p, moduleId, path, content, instanceType);
            r.Added? ==> GrowPlainly(p.objects, r.project.objects)
  {
    hide InModule;
  }

  lemma ResolvingGrows(p: Project)
    requires Sound(p)
    ensures GrowPlainly(p.objects, ResolveReferences(p).objects)
  {
    hide GrowPlainly, ResolveLog, FirstFailure, Shaped;
    ResolveLogKeeps(p, FirstFailure(p, 0));
    RefsGrow(p.objects, ResolveLog(p, FirstFailure(p, 0)).objects);
  }

  /** Along a run from one project to a later one. */
  lemma {:induction false} RunGrows(projects: seq<Project>, calls: seq<Op>, i: nat, j: nat)
    requires IsRun(projects, calls) && i <= j < |projects|
    ensures GrowPlainly(projects[i].objects, projects[j].objects)
    decreases j
  {
    if i == j {
      SameObjectsGrow(projects[i].objects);
    } else {
      hide GrowPlainly, Sound, Possible, Apply;
      RunGrows(projects, calls, i, j - 1);
      EveryRunIsSound(projects, calls, j - 1);
      StepOfRun(projects, calls, j - 1);
      StepGrows(projects[j - 1], calls[j - 1]);
      GrowPlainlyTwice(projects[i].objects, projects[j - 1].objects, projects[j].objects);
    }
  }

  /** Nothing in any project of any run is folded. */
  lemma NothingIsFolded(projects: seq<Project>, calls: seq<Op>, i: nat, o: nat, k: nat)
    requires IsRun(projects, calls) && i < |projects|
    requires o < |projects[i].objects| && k < |projects[i].objects[o].insts|
    ensures !projects[i].objects[o].insts[k].folded
  {
    RunGrows(projects, calls, 0, i);
    assert projects[0].objects == [];
    assert IsPlain(projects[i].objects[o]);
  }

  /** So fold depths are 0, of instances and of references. */
  lemma FoldDepthsAreZero(
      projects: seq<Project>, calls: seq<Op>, i: nat, o: nat, num: seq<Place>, points: seq<Point>)
    requires IsRun(projects, calls) && i < |projects| && o < |projects[i].objects|
    requires AreObjectNumbers(projects[i], o, num, points)
    ensures forall k | 0 <= k < |num| :: num[k].fold == 0
    ensures forall k | 0 <= k < |points| :: points[k].fold == 0
  {
    hide IsRun, AreNumbers, StatedOf, RankBySymbol;
    var p := projects[i];
    var insts := p.objects[o].insts;
    var s, stated := Extents(insts, RankBySymbol(p.symbols.list)), StatedOf(p.instances, o + 1, |insts|);
    var folded := FlagsOf(insts);
    var tokens := TokensOf(p.objects[o].refs);
    forall k | 0 <= k < |insts| ensures !folded[k] {
      NothingIsFolded(projects, calls, i, o, k);
    }
    NumbersAreOf(s, stated, folded, tokens, num, points);
    forall k: nat | k < |num| ensures num[k].fold == 0 {
      LevelsCountIntervals(s, stated, folded, tokens, num, points, k);
      assert (set x: nat | x < |num| && Holds(num, x, num[k].enter) && folded[x]) == {};
    }
    forall k: nat | k < |points| ensures points[k].fold == 0 {
      var owner := ReferenceIsHeldByOwner(s, stated, folded, tokens, num, points, k);
    }
  }

  lemma NumbersAreOf(
      s: seq<Extent>, stated: map<int, int>, folded: seq<bool>, ranges: seq<Range>, num: seq<Place>, points: seq<Point>)
    requires |s| == |folded| && AreNumbers(s, stated, folded, ranges, num, points)
    ensures |num| == |s| && |points| == |ranges|
  {}
}
