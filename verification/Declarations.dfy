/** Which calls declare anything, and that what is declared is of a kind the calls asked for. */
module Declarations {
  import opened Containment
  import opened Store
  import opened StoreInvariant
  import opened Shape
  import opened Runs

  /** All declarations of `p` are in `q` and no others; symbols may have come in behind. */
  predicate SameDeclarations(p: Project, q: Project) {
    q.symbols == p.symbols.(list := q.symbols.list) && q.instances == p.instances && p.symbols.list <= q.symbols.list
  }

  lemma {:induction false} EachModuleDeclaresNothing(p: Project, modules: seq<int>)
    requires forall m | m in modules :: m in p.modules.byID
    ensures SameDeclarations(p, CreateEachModule(p, modules))
    decreases |modules|
  {
    if |modules| > 0 {
      EachModuleDeclaresNothing(p, modules[..|modules| - 1]);
    }
  }

  lemma ModulesDeclareNothing(p: Project, modules: seq<int>)
    requires forall m | m in modules :: m in p.modules.byID
    ensures SameDeclarations(p, CreateModuleSymbols(p, modules))
  {
    hide CreateEachModule, ResolveImports;
    EachModuleDeclaresNothing(p, modules);
  }

  lemma DirectoriesDeclareNothing(p: Project, dirs: seq<string>, files: seq<int>, children: seq<string>)
    ensures SameDeclarations(p, CreateDirectorySymbols(p, dirs, files, children))
  {
    hide WithDirectories;
  }

  /** Only AddSymbol declares anything. */
  lemma OthersDeclareNothing(p: Project, op: Op)
    requires Possible(p, op) && !op.CallAddSymbol?
    ensures SameDeclarations(p, Apply(p, op))
  {
    hide CreateModuleSymbols, CreateDirectorySymbols, ResolveLog, FirstFailure;
    match op
    case CallCreateModules(modules) => ModulesDeclareNothing(p, modules);
    case CallMarshal(modules, dirs, files, children) =>
      ModulesDeclareNothing(p, modules);
      DirectoriesDeclareNothing(CreateModuleSymbols(p, modules), dirs, files, children);
    case _ =>
  }

  // ------------------------------------------------------------------
  // Kinds

  /** Files, modules and directories get their symbols from the index itself. */
  predicate IsDeclarable(kind: SymbolKind) {
    kind != File && kind != Module && kind != Directory
  }

  /** All symbols that calls declared are declarations, not files, modules or directories. */
  ghost predicate DeclarationsOnly(p: Project) {
    forall key | key in p.symbols.byKey :: IsDeclarable(KindOf(p.symbols.list, p.symbols.byKey[key]))
  }

  predicate IsDeclaring(op: Op) {
    op.CallAddSymbol? ==> IsDeclarable(op.call.kind)
  }

  /** No call to AddSymbol asks for the kind of a file, module or directory. */
  ghost predicate DeclaresOnly(calls: seq<Op>) {
    forall i | 0 <= i < |calls| :: IsDeclaring(calls[i])
  }

  lemma StepDeclaresOnly(p: Project, op: Op)
    requires SymbolsAgree(p.symbols) && Possible(p, op) && DeclarationsOnly(p) && IsDeclaring(op)
    ensures DeclarationsOnly(Apply(p, op))
  {
    var q := Apply(p, op);
    if op.CallAddSymbol? {
      hide DeclareOnce;
      if Accepts(p, op.call) {
        AddSymbolNames(p, op.call);
        forall key | key in q.symbols.byKey ensures IsDeclarable(KindOf(q.symbols.list, q.symbols.byKey[key])) {
          assert key in p.symbols.byKey || q.symbols.byKey[key] == |p.symbols.list| + 1;
        }
      }
    } else {
      hide Apply;
      OthersDeclareNothing(p, op);
      forall key | key in q.symbols.byKey ensures IsDeclarable(KindOf(q.symbols.list, q.symbols.byKey[key])) {
        assert key in p.symbols.byKey;
      }
    }
  }

  /** The symbols after a call to AddSymbol. */
  lemma AddSymbolNames(p: Project, c: SymbolCall)
    requires Accepts(p, c)
    ensures AddSymbol(p, c).project.symbols == NamedSymbol(p.symbols, p.files.pathByID[c.fileId], c).0
  {
    hide NamedSymbol;
  }

  /** Whatever else is called, a run that asks for declarations only has declared nothing else. */
  lemma {:induction false} RunDeclaresOnly(projects: seq<Project>, calls: seq<Op>, i: nat)
    requires IsRun(projects, calls) && DeclaresOnly(calls) && i < |projects|
    ensures DeclarationsOnly(projects[i])
  {
    if i > 0 {
      hide Sound, Possible, Apply, DeclarationsOnly, IsDeclaring;
      RunDeclaresOnly(projects, calls, i - 1);
      EveryRunIsSound(projects, calls, i - 1);
      StepOfRun(projects, calls, i - 1);
      assert IsDeclaring(calls[i - 1]);
      SoundSymbols(projects[i - 1]);
      StepDeclaresOnly(projects[i - 1], calls[i - 1]);
    } else {
      hide *;
      NothingDeclared();
      RunStarts(projects, calls);
    }
  }

  lemma RunStarts(projects: seq<Project>, calls: seq<Op>)
    requires IsRun(projects, calls)
    ensures |projects| == |calls| + 1 && projects[0] == EMPTY
  {}

  lemma NothingDeclared()
    ensures DeclarationsOnly(EMPTY)
  {}

  lemma SoundSymbols(p: Project)
    requires Sound(p)
    ensures SymbolsAgree(p.symbols)
  {}
}
