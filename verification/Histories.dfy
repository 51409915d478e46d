/**
 What becomes of a call later in the run: its name stays found, its instance stays listed under
 its key, and a reference that was asked for arrives.
 */
module Histories {
  import opened Collections
  import opened Entities
  import opened Store
  import opened StoreInvariant
  import opened Shape
  import opened Resolution
  import opened Runs
  import opened Declarations
  import opened Wholes
  import opened Finalised
  import opened Creations
  import opened Fields
  import opened Growth

  // ------------------------------------------------------------------
  // Names

  /** The symbol that a file and name find is of that name. */
  ghost predicate NamesAgree(p: Project) {
    forall name | name in p.symbols.byFileAndName ::
      && IsSymbol(p.symbols, p.symbols.byFileAndName[name])
      && p.symbols.list[p.symbols.byFileAndName[name] - 1].name == name.name
  }

  /** All names that were found still are. */
  ghost predicate NamesStay(p: Project, q: Project) {
    forall name | name in p.symbols.byFileAndName :: name in q.symbols.byFileAndName
  }

  lemma DeclaringKeepsNames(p: Project, c: SymbolCall)
    requires SymbolsAgree(p.symbols) && NamesAgree(p) && Accepts(p, c)
    ensures NamesAgree(AddSymbol(p, c).project) && NamesStay(p, AddSymbol(p, c).project)
  {
    hide DeclareOnce;
    var r := AddSymbol(p, c);
    NamesAsAsked(p, c);
    Declarations.AddSymbolNames(p, c);
    var path := p.files.pathByID[c.fileId];
    forall name | name in r.project.symbols.byFileAndName
      ensures IsSymbol(r.project.symbols, r.project.symbols.byFileAndName[name])
      ensures r.project.symbols.list[r.project.symbols.byFileAndName[name] - 1].name == name.name
    {
      if name != FileName(path, c.name) {
        assert name in p.symbols.byFileAndName;
      }
    }
  }

  lemma StepNames(p: Project, op: Op)
    requires Sound(p) && Possible(p, op) && NamesAgree(p)
    ensures NamesAgree(Apply(p, op)) && NamesStay(p, Apply(p, op))
  {
    hide Invariant, Shaped, AddSymbol;
    if op.CallAddSymbol? {
      if Accepts(p, op.call) {
        SoundSymbols(p);
        DeclaringKeepsNames(p, op.call);
      }
    } else {
      hide Apply;
      OthersDeclareNothing(p, op);
    }
  }

  lemma NothingNamed()
    ensures NamesAgree(EMPTY)
  {}

  lemma {:induction false} RunNames(projects: seq<Project>, calls: seq<Op>, i: nat)
    requires IsRun(projects, calls) && i < |projects|
    ensures NamesAgree(projects[i])
  {
    hide Sound, Possible, Apply, NamesAgree, NamesStay, IsRun;
    RunStarts(projects, calls);
    if i == 0 {
      NothingNamed();
    } else {
      RunNames(projects, calls, i - 1);
      EveryRunIsSound(projects, calls, i - 1);
      StepOfRun(projects, calls, i - 1);
      StepNames(projects[i - 1], calls[i - 1]);
    }
  }

  lemma StayTwice(p: Project, q: Project, r: Project)
    requires NamesStay(p, q) && NamesStay(q, r)
    ensures NamesStay(p, r)
  {}

  lemma StayAtOnce(p: Project)
    ensures NamesStay(p, p)
  {}

  lemma {:induction false} NamesStayFound(projects: seq<Project>, calls: seq<Op>, i: nat, j: nat)
    requires IsRun(projects, calls) && i <= j < |projects|
    ensures NamesStay(projects[i], projects[j])
    decreases j
  {
    hide Sound, Possible, Apply, NamesAgree, NamesStay, IsRun;
    RunStarts(projects, calls);
    if i == j {
      StayAtOnce(projects[i]);
    } else {
      NamesStayFound(projects, calls, i, j - 1);
      RunNames(projects, calls, j - 1);
      EveryRunIsSound(projects, calls, j - 1);
      StepOfRun(projects, calls, j - 1);
      StepNames(projects[j - 1], calls[j - 1]);
      StayTwice(projects[i], projects[j - 1], projects[j]);
    }
  }

  /** Call `i` was an accepted declaration of `name` in the file of path `path`. */
  predicate Declares(p: Project, op: Op, path: string, name: string) {
    op.CallAddSymbol? && Accepts(p, op.call) && p.files.pathByID[op.call.fileId] == path && op.call.name == name
  }

  /** From then on that file and name find a symbol of that name, whatever else is declared or finalised. */
  lemma DeclaredIsFound(projects: seq<Project>, calls: seq<Op>, i: nat, j: nat, path: string, name: string)
    requires IsRun(projects, calls) && i < j < |projects| && i < |calls|
    requires Declares(projects[i], calls[i], path, name) && path != ""
    ensures FileName(path, name) in projects[j].symbols.byFileAndName
    ensures var id := projects[j].symbols.byFileAndName[FileName(path, name)];
            IsSymbol(projects[j].symbols, id) && projects[j].symbols.list[id - 1].name == name
  {
    hide Sound, Possible, AddSymbol;
    StepOfRun(projects, calls, i);
    NamesAsAsked(projects[i], calls[i].call);
    NamesStayFound(projects, calls, i + 1, j);
    RunNames(projects, calls, j);
  }

  // ------------------------------------------------------------------
  // Lists of instances

  /** What is listed of the instance that a call declares, if it declares a new one. */
  function NewEntry(p: Project, op: Op): Option<Entry> {
    if !op.CallAddSymbol? || !Accepts(p, op.call) then None
    else
      var c, r := op.call, AddSymbol(p, op.call);
      var length := |p.objects[c.fileId - 1].content|;
      var start := if c.end > length && c.start > length then length else c.start;
      var end := if c.end > length then length else c.end;
      if InstanceKey(r.symbolID, c.fileId, start, end) in p.instances.idByKey then None
      else Some(Entry(r.symbolID, c.fileId, c.kind, start, end, r.instanceID))
  }

  /** Call `i` declared entry `e` of file `f`. */
  predicate IsEntryOf(projects: seq<Project>, calls: seq<Op>, i: int, f: int, e: Entry) {
    0 <= i < |calls| && i < |projects| && NewEntry(projects[i], calls[i]) == Some(e) && calls[i].call.fileId == f
  }

  /** Call `i` declared instance `id` under that name, scope and kind. */
  predicate IsFoundOf(projects: seq<Project>, calls: seq<Op>, i: int, key: LookupKey, id: int) {
    && 0 <= i < |calls| && i < |projects| && NewEntry(projects[i], calls[i]).Some?
    && NewEntry(projects[i], calls[i]).value.instanceID == id
    && LookupKey(calls[i].call.name, calls[i].call.scope, calls[i].call.kind) == key
  }

  ghost predicate DeclaredBefore(projects: seq<Project>, calls: seq<Op>, j: nat, f: int, e: Entry) {
    exists i :: i < j && IsEntryOf(projects, calls, i, f, e)
  }

  ghost predicate FoundBefore(projects: seq<Project>, calls: seq<Op>, j: nat, key: LookupKey, id: int) {
    exists i :: i < j && IsFoundOf(projects, calls, i, key, id)
  }

  lemma OneCallMore(projects: seq<Project>, calls: seq<Op>, j: nat, f: int, e: Entry, key: LookupKey, id: int)
    ensures DeclaredBefore(projects, calls, j + 1, f, e)
            <==> DeclaredBefore(projects, calls, j, f, e) || IsEntryOf(projects, calls, j, f, e)
    ensures FoundBefore(projects, calls, j + 1, key, id)
            <==> FoundBefore(projects, calls, j, key, id) || IsFoundOf(projects, calls, j, key, id)
  {
    hide IsEntryOf, IsFoundOf;
    if i :| i < j + 1 && IsEntryOf(projects, calls, i, f, e) && i != j {
      assert i < j;
    }
    if i :| i < j + 1 && IsFoundOf(projects, calls, i, key, id) && i != j {
      assert i < j;
    }
  }

  lemma NoCallYet(projects: seq<Project>, calls: seq<Op>, f: int, e: Entry, key: LookupKey, id: int)
    ensures !DeclaredBefore(projects, calls, 0, f, e) && !FoundBefore(projects, calls, 0, key, id)
  {}

  lemma StepLists(p: Project, op: Op, f: int, e: Entry, key: LookupKey, id: int)
    requires Possible(p, op)
    ensures var q, made := Apply(p, op), NewEntry(p, op);
            && (e in Listed(q.instances.byFile, f)
                <==> e in Listed(p.instances.byFile, f) || (made == Some(e) && op.call.fileId == f))
            && (id in Listed(q.instances.byLookup, key)
                <==> || id in Listed(p.instances.byLookup, key)
                     || (made.Some? && made.value.instanceID == id
                         && LookupKey(op.call.name, op.call.scope, op.call.kind) == key))
  {
    hide AddSymbol, Listed;
    if op.CallAddSymbol? {
      if Accepts(p, op.call) {
        NamesAsAsked(p, op.call);
      }
    } else {
      hide Apply;
      OthersDeclareNothing(p, op);
    }
  }

  /**
   The instances listed for a file and under a key are those that calls so far have declared
   there, with the kind, extent and id of the call, and no others.
   */
  lemma {:induction false} ListsAreHistory(
      projects: seq<Project>, calls: seq<Op>, j: nat, f: int, e: Entry, key: LookupKey, id: int)
    requires IsRun(projects, calls) && j < |projects|
    ensures e in Listed(projects[j].instances.byFile, f) <==> DeclaredBefore(projects, calls, j, f, e)
    ensures id in Listed(projects[j].instances.byLookup, key) <==> FoundBefore(projects, calls, j, key, id)
  {
    if j == 0 {
      NoCallYet(projects, calls, f, e, key, id);
    } else {
      hide Possible, Apply, NewEntry, Listed, DeclaredBefore, FoundBefore, IsEntryOf, IsFoundOf;
      ListsAreHistory(projects, calls, j - 1, f, e, key, id);
      StepOfRun(projects, calls, j - 1);
      StepLists(projects[j - 1], calls[j - 1], f, e, key, id);
      OneCallMore(projects, calls, j - 1, f, e, key, id);
      LastCall(projects, calls, j - 1, f, e, key, id);
    }
  }

  lemma LastCall(projects: seq<Project>, calls: seq<Op>, i: nat, f: int, e: Entry, key: LookupKey, id: int)
    requires i < |calls| && i < |projects|
    ensures var made := NewEntry(projects[i], calls[i]);
            && (IsEntryOf(projects, calls, i, f, e) <==> made == Some(e) && calls[i].call.fileId == f)
            && (IsFoundOf(projects, calls, i, key, id)
                <==> made.Some? && made.value.instanceID == id
                     && LookupKey(calls[i].call.name, calls[i].call.scope, calls[i].call.kind) == key)
  {}

  // ------------------------------------------------------------------
  // References

  /** The log after a call: an accepted reference more, nothing after a resolution without failure, or the same. */
  lemma StepLogs(p: Project, op: Op)
    requires Possible(p, op)
    ensures Apply(p, op).references
            == if op.CallResolveReferences? && ResolveOutcome(p) == Resolved then []
               else if op.CallAddReference? && IsAcceptable(op.ref) then p.references + [op.ref]
               else p.references
  {
    hide AddSymbol, CreateModuleSymbols, CreateDirectorySymbols, ResolveLog, AddFile;
    match op
    case CallAddSymbol(call) =>
      if Accepts(p, call) {
        DeclaringTouches(p, call);
      }
    case CallAddFile(moduleId, path, content, instanceType) => AddFileLogs(p, moduleId, path, content, instanceType);
    case CallCreateModules(modules) => ModulesLog(p, modules);
    case CallMarshal(modules, dirs, files, children) =>
      ModulesLog(p, modules);
      DirectoriesLog(CreateModuleSymbols(p, modules), dirs, files, children);
    case _ =>
  }

  lemma AddFileLogs(p: Project, moduleId: Option<int>, path: string, content: seq<int>, instanceType: InstanceType)
    ensures var r := AddFile(p, moduleId, path, content, instanceType);
            r.Added? ==> r.project.references == p.references
  {}

  lemma ModulesLog(p: Project, modules: seq<int>)
    requires forall m | m in modules :: m in p.modules.byID
    ensures CreateModuleSymbols(p, modules).references == p.references
  {
    hide CreateEachModule, ResolveImports;
    EachAddsModuleSymbol(p, modules);
  }

  lemma DirectoriesLog(p: Project, dirs: seq<string>, files: seq<int>, children: seq<string>)
    ensures CreateDirectorySymbols(p, dirs, files, children).references == p.references
  {
    hide WithDirectories;
  }

  /** No resolution from call `i` on, up to `j`, has gone through. */
  ghost predicate NoneResolved(projects: seq<Project>, calls: seq<Op>, i: nat, j: nat) {
    && j <= |calls| && j < |projects|
    && forall k | i <= k < j :: !(calls[k].CallResolveReferences? && ResolveOutcome(projects[k]) == Resolved)
  }

  /** An accepted reference is in the log until a resolution goes through. */
  lemma {:induction false} StaysLogged(projects: seq<Project>, calls: seq<Op>, i: nat, j: nat)
    requires IsRun(projects, calls) && i < j <= |calls| && |projects| == |calls| + 1
    requires calls[i].CallAddReference? && IsAcceptable(calls[i].ref) && NoneResolved(projects, calls, i, j)
    ensures calls[i].ref in projects[j].references
    decreases j
  {
    hide Possible, Apply, ResolveOutcome;
    StepOfRun(projects, calls, j - 1);
    StepLogs(projects[j - 1], calls[j - 1]);
    if j - 1 > i {
      StaysLogged(projects, calls, i, j - 1);
    }
  }

  /** File `f` holds a reference at these offsets to a symbol of that name. */
  ghost predicate HoldsReference(p: Project, f: int, name: string, start: int, end: int, full: Option<Span>) {
    IsObject(p.objects, f) && IsAmongRefs(p, p.objects[f - 1].refs, name, start, end, full)
  }

  ghost predicate IsAmongRefs(p: Project, refs: seq<RefInfo>, name: string, start: int, end: int, full: Option<Span>) {
    exists a :: 0 <= a < |refs| && IsReferenceTo(p, refs[a], name, start, end, full)
  }

  predicate IsReferenceTo(p: Project, ref: RefInfo, name: string, start: int, end: int, full: Option<Span>) {
    && IsSymbol(p.symbols, ref.toSymbolLocalId) && p.symbols.list[ref.toSymbolLocalId - 1].name == name
    && ref.start == start && ref.end == end && ref.full == full
  }

  /** Other entries that ask for the same place and name give the same construct around it. */
  predicate GivesOneFull(log: seq<Reference>, ref: Reference) {
    forall e | 0 <= e < |log| && log[e].fromFile == ref.fromFile && log[e].start.offset == ref.start.offset
      && log[e].end.offset == ref.end.offset :: log[e].full == ref.full
  }

  /** An entry that asks is answered by a reference with the construct that its first asking gives. */
  lemma AskedIsAnswered(p: Project, f: int, m: nat, added: seq<RefInfo>, e: nat, token: Token)
    returns (a: nat, first: nat)
    requires AreAsked(p, f, m, added) && e < m && AsksFor(p, f, e, token)
    ensures a < |added| && TokenOf(added[a]) == token && AsksFor(p, f, first, token) && first < |p.references|
    ensures added[a].full == FullOf(p.references[first])
  {
    hide AsksFor, FullOf, DistinctTokens;
    assert IsAmong(added, token);
    a :| 0 <= a < |added| && TokenOf(added[a]) == token;
    first := FirstAsking(p, f, e, token);
    AskingInRange(p, f, first, token);
  }

  lemma SameFull(p: Project, ref: Reference, first: nat, token: Token)
    requires AsksFor(p, ref.fromFile, first, token) && GivesOneFull(p.references, ref)
    requires token.start == ref.start.offset && token.end == ref.end.offset
    ensures first < |p.references| && FullOf(p.references[first]) == FullOf(ref)
  {}

  lemma EntryAsks(p: Project, ref: Reference, e: nat, token: Token)
    requires e < |p.references| && p.references[e] == ref && ref.fromFile in p.files.pathByID
    requires Finds(p, ref, token.toSymbolLocalId) && token.start == ref.start.offset && token.end == ref.end.offset
    requires 0 <= ref.start.offset <= 0x7FFF_FFFF && 0 <= ref.end.offset <= 0x7FFF_FFFF
    ensures AsksFor(p, ref.fromFile, e, token)
  {}

  /** A resolution that goes through gives the file the reference that the log asks for. */
  lemma ResolvedArrives(p: Project, ref: Reference)
    requires Sound(p) && NamesAgree(p) && ref in p.references && ResolveOutcome(p) == Resolved
    requires FileName(ref.to.filename, ref.toName) in p.symbols.byFileAndName && ref.fromFile in p.files.pathByID
    requires 0 <= ref.start.offset <= 0x7FFF_FFFF && 0 <= ref.end.offset <= 0x7FFF_FFFF
    requires GivesOneFull(p.references, ref)
    ensures HoldsReference(ResolveReferences(p), ref.fromFile, ref.toName, ref.start.offset, ref.end.offset,
                           FullOf(ref))
  {
    hide Sound, ResolveOutcome, Store.ResolveReferences, AreAsked, AsksFor, FullOf, GivesOneFull, EndsAt;
    var f, q := ref.fromFile, ResolveReferences(p);
    FileHasInstance(p, f);
    var m := ReferencesAsAsked(p, f);
    AllBeforeFailure(p, m);
    var e :| 0 <= e < |p.references| && p.references[e] == ref;
    var id := p.symbols.byFileAndName[FileName(ref.to.filename, ref.toName)];
    var token := Token(id, ref.start.offset, ref.end.offset);
    EntryAsks(p, ref, e, token);
    var before, after := p.objects[f - 1].refs, q.objects[f - 1].refs;
    var a, first := AskedIsAnswered(p, f, m, after[|before|..], e, token);
    SameFull(p, ref, first, token);
    assert after[|before| + a] == after[|before|..][a];
    assert IsReferenceTo(q, after[|before| + a], ref.toName, ref.start.offset, ref.end.offset, FullOf(ref));
  }

  /** A resolution that goes through has no missing target. */
  lemma AllBeforeFailure(p: Project, m: nat)
    requires ResolveOutcome(p) == Resolved && EndsAt(p, m)
    ensures m == |p.references|
  {
    hide ResolveOutcome;
    if m < |p.references| {
      MissingIs(p, p.references[m]);
    }
  }

  lemma {:induction false} FirstAsking(p: Project, f: int, e: nat, token: Token) returns (first: nat)
    requires AsksFor(p, f, e, token)
    ensures AsksFirst(p, f, first, token) && AsksFor(p, f, first, token)
    decreases e
  {
    hide AsksFor;
    if AsksFirst(p, f, e, token) {
      first := e;
    } else {
      var j :| AsksFor(p, f, j, token) && j < e;
      AskingInRange(p, f, j, token);
      first := FirstAsking(p, f, j, token);
    }
  }

  lemma AskingInRange(p: Project, f: int, j: int, token: Token)
    requires AsksFor(p, f, j, token)
    ensures 0 <= j < |p.references|
  {}

  /** References and names of symbols stay. */
  lemma StaysHeld(
      projects: seq<Project>, calls: seq<Op>, i: nat, j: nat, f: int, name: string, start: int, end: int,
      full: Option<Span>)
    requires IsRun(projects, calls) && i <= j < |projects| && HoldsReference(projects[i], f, name, start, end, full)
    ensures HoldsReference(projects[j], f, name, start, end, full)
  {
    hide IsRun;
    RunGrows(projects, calls, i, j);
    RunLists(projects, calls, i, j);
    var p, q := projects[i], projects[j];
    var a :| 0 <= a < |p.objects[f - 1].refs| && IsReferenceTo(p, p.objects[f - 1].refs[a], name, start, end, full);
    assert GrowsFrom(p.objects[f - 1], q.objects[f - 1]);
    assert IsReferenceTo(q, q.objects[f - 1].refs[a], name, start, end, full);
  }

  lemma StepKeepsList(p: Project, op: Op)
    requires Possible(p, op)
    ensures p.symbols.list <= Apply(p, op).symbols.list
  {
    if op.CallAddSymbol? {
      hide DeclareOnce;
      if Accepts(p, op.call) {
        Declarations.AddSymbolNames(p, op.call);
      }
    } else {
      hide Apply;
      OthersDeclareNothing(p, op);
    }
  }

  lemma {:induction false} RunLists(projects: seq<Project>, calls: seq<Op>, i: nat, j: nat)
    requires IsRun(projects, calls) && i <= j < |projects|
    ensures projects[i].symbols.list <= projects[j].symbols.list
    decreases j
  {
    if i < j {
      hide Possible, Apply;
      RunLists(projects, calls, i, j - 1);
      StepOfRun(projects, calls, j - 1);
      StepKeepsList(projects[j - 1], calls[j - 1]);
    }
  }

  /**
   From declaration and use to the finished project: a name declared in one file, a reference to
   it accepted from any known file, and then a resolution that goes through leave that file
   with exactly that reference, for the rest of the run.
   */
  lemma ReferenceArrives(projects: seq<Project>, calls: seq<Op>, i: nat, j: nat, k: nat, n: nat, path: string)
    requires IsRun(projects, calls) && i < k && j < k < n < |projects| && |projects| == |calls| + 1
    requires calls[j].CallAddReference? && path != ""
    requires var ref := calls[j].ref;
             && Declares(projects[i], calls[i], path, ref.toName) && ref.to.filename == path
             && ref.to.line > 0 && (ref.start.line > 0 || ref.start.filename != "")
             && ref.fromFile in projects[k].files.pathByID
             && 0 <= ref.start.offset <= 0x7FFF_FFFF && 0 <= ref.end.offset <= 0x7FFF_FFFF
             && GivesOneFull(projects[k].references, ref)
    requires NoneResolved(projects, calls, j, k)
    requires calls[k].CallResolveReferences? && ResolveOutcome(projects[k]) == Resolved
    ensures var ref := calls[j].ref;
            HoldsReference(projects[n], ref.fromFile, ref.toName, ref.start.offset, ref.end.offset, FullOf(ref))
  {
    hide Sound, Possible, ResolveOutcome, HoldsReference, NamesAgree, Store.ResolveReferences, Declares, GivesOneFull,
      FullOf;
    var ref := calls[j].ref;
    EveryRunIsSound(projects, calls, k);
    RunNames(projects, calls, k);
    StaysLogged(projects, calls, j, k);
    DeclaredIsFound(projects, calls, i, k, path, ref.toName);
    ResolvedArrives(projects[k], ref);
    StepOfRun(projects, calls, k);
    StaysHeld(projects, calls, k + 1, n, ref.fromFile, ref.toName, ref.start.offset, ref.end.offset, FullOf(ref));
  }

  // ------------------------------------------------------------------
  // Imports

  /** The import log after a call: one more, nothing once module symbols have been created, or the same. */
  lemma StepImports(p: Project, op: Op)
    requires Possible(p, op)
    ensures Apply(p, op).imports
            == if op.CallCreateModules? || op.CallMarshal? then []
               else if op.CallAddModuleImport? then p.imports + [op.imp]
               else p.imports
  {
    hide AddSymbol, CreateDirectorySymbols, ResolveLog, AddFile, CreateEachModule, ResolveImports;
    match op
    case CallAddSymbol(call) =>
      if Accepts(p, call) {
        DeclaringTouches(p, call);
      }
    case CallAddFile(moduleId, path, content, instanceType) => AddFileImports(p, moduleId, path, content, instanceType);
    case CallMarshal(modules, dirs, files, children) =>
      DirectoriesImport(CreateModuleSymbols(p, modules), dirs, files, children);
    case _ =>
  }

  lemma AddFileImports(p: Project, moduleId: Option<int>, path: string, content: seq<int>, instanceType: InstanceType)
    ensures var r := AddFile(p, moduleId, path, content, instanceType);
            r.Added? ==> r.project.imports == p.imports
  {}

  lemma DirectoriesImport(p: Project, dirs: seq<string>, files: seq<int>, children: seq<string>)
    ensures CreateDirectorySymbols(p, dirs, files, children).imports == p.imports
  {
    hide WithDirectories;
  }

  /** An import is in the log until module symbols are created. */
  lemma {:induction false} ImportStaysLogged(projects: seq<Project>, calls: seq<Op>, i: nat, j: nat)
    requires IsRun(projects, calls) && i < j <= |calls| && |projects| == |calls| + 1 && calls[i].CallAddModuleImport?
    requires forall k | i < k < j :: !CreatesModules(calls[k])
    ensures calls[i].imp in projects[j].imports
    decreases j
  {
    hide Possible, Apply;
    StepOfRun(projects, calls, j - 1);
    StepImports(projects[j - 1], calls[j - 1]);
    if j - 1 > i {
      ImportStaysLogged(projects, calls, i, j - 1);
    }
  }

  /** Creating the symbols of all modules turns a logged import into a reference to the module it names. */
  lemma ImportBecomesReference(p: Project, modules: seq<int>, imp: ModuleImport)
    requires Sound(p) && Enumerates(modules, p.modules.byID.Keys) && imp in p.imports
    requires imp.toModuleName in p.modules.byName && imp.fromFileID in p.files.pathByID
    ensures HoldsReference(CreateModuleSymbols(p, modules), imp.fromFileID, imp.toModuleName,
                           ToInt32(imp.start), ToInt32(imp.end), None)
  {
    hide Sound, CreateModuleSymbols, ToInt32, DistinctTokens;
    var f, q := imp.fromFileID, CreateModuleSymbols(p, modules);
    SoundKeeps(p);
    var added := ImportsByName(p, modules, f);
    var i :| 0 <= i < |p.imports| && p.imports[i] == imp;
    var symbol :| IsModuleNamed(q, imp.toModuleName, symbol);
    var token := Token(symbol, ToInt32(imp.start), ToInt32(imp.end));
    assert ImportsAs(p, q, f, i, token);
    assert IsAmong(added, token);
    var a :| 0 <= a < |added| && TokenOf(added[a]) == token;
    var refs := q.objects[f - 1].refs;
    assert refs[|p.objects[f - 1].refs| + a] == added[a];
    assert IsReferenceTo(q, refs[|p.objects[f - 1].refs| + a], imp.toModuleName, ToInt32(imp.start), ToInt32(imp.end),
                         None);
  }

  lemma DirectoriesHold(
      p: Project, dirs: seq<string>, files: seq<int>, children: seq<string>,
      f: int, name: string, start: int, end: int, full: Option<Span>)
    requires Sound(p) && HoldsReference(p, f, name, start, end, full)
    ensures HoldsReference(CreateDirectorySymbols(p, dirs, files, children), f, name, start, end, full)
  {
    hide Sound, CreateDirectorySymbols;
    var q := CreateDirectorySymbols(p, dirs, files, children);
    DirectoriesAreGrowing(p, dirs, files, children);
    DirectoriesDeclareNothing(p, dirs, files, children);
    assert GrowsFrom(p.objects[f - 1], q.objects[f - 1]);
    var a :| 0 <= a < |p.objects[f - 1].refs| && IsReferenceTo(p, p.objects[f - 1].refs[a], name, start, end, full);
    assert IsReferenceTo(q, q.objects[f - 1].refs[a], name, start, end, full);
  }

  /**
   An import from a known file of a module that has been added by then is, once module symbols
   are created, a reference to the symbol of exactly that name, for the rest of the run.
   */
  lemma ImportArrives(projects: seq<Project>, calls: seq<Op>, j: nat, k: nat, n: nat)
    requires IsRun(projects, calls) && j < k < n < |projects| && |projects| == |calls| + 1
    requires calls[j].CallAddModuleImport? && CreatesModules(calls[k])
    requires forall i | j < i < k :: !CreatesModules(calls[i])
    requires calls[j].imp.toModuleName in projects[k].modules.byName
    requires calls[j].imp.fromFileID in projects[k].files.pathByID
    ensures var imp := calls[j].imp;
            HoldsReference(projects[n], imp.fromFileID, imp.toModuleName, ToInt32(imp.start), ToInt32(imp.end), None)
  {
    hide Sound, HoldsReference, CreateModuleSymbols, CreateDirectorySymbols, ToInt32;
    var imp, p, op := calls[j].imp, projects[k], calls[k];
    EveryRunIsSound(projects, calls, k);
    ImportStaysLogged(projects, calls, j, k);
    StepOfRun(projects, calls, k);
    ImportBecomesReference(p, op.modules, imp);
    if op.CallMarshal? {
      CreateModulesKeep(p, op.modules);
      DirectoriesHold(CreateModuleSymbols(p, op.modules), op.dirs, op.files, op.children, imp.fromFileID,
                      imp.toModuleName, ToInt32(imp.start), ToInt32(imp.end), None);
    }
    StaysHeld(projects, calls, k + 1, n, imp.fromFileID, imp.toModuleName, ToInt32(imp.start), ToInt32(imp.end), None);
  }
}
