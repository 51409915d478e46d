/** What single calls leave behind, said in terms of what they were asked for. */
module Effects {
  import opened Containment
  import opened Entities
  import opened Store
  import opened StoreInvariant
  import opened StoreSteps
  import opened Finalise
  import opened ShapeSteps
  import opened Resolution

  // ------------------------------------------------------------------
  // Declaring a symbol

  /** The symbol that a call is about, found by its name and scope; of the call's kind when it is new. */
  predicate IsSymbolOf(p: Project, q: Project, c: SymbolCall, symbolID: int)
    requires c.fileId in p.files.pathByID
  {
    && IsSymbol(q.symbols, symbolID) && KeyOfSymbol(q.symbols, symbolID) == SymbolKey(c.name, c.scope)
    && q.symbols.list == (if SymbolKey(c.name, c.scope) in p.symbols.byKey then p.symbols.list
                          else p.symbols.list + [Symbol(symbolID, c.name, c.scope, c.kind)])
    && (p.files.pathByID[c.fileId] != "" ==>
          var name := FileName(p.files.pathByID[c.fileId], c.name);
          name in q.symbols.byFileAndName && q.symbols.byFileAndName[name] == symbolID)
  }

  lemma SymbolAsAsked(p: Project, c: SymbolCall)
    requires Invariant(p) && Accepts(p, c)
    ensures IsSymbolOf(p, AddSymbol(p, c).project, c, AddSymbol(p, c).symbolID)
  {
    hide AllNamed, FilesAgree, ModulesAgree, SlotsAgree, StatedAgrees, EntriesAgree, LookupAgrees, WithDeclared,
      WithInstance;
  }

  function Min(a: int, b: int): int {
    if a <= b then a else b
  }

  /** A span is kept whole or not at all, and kept exactly when it lies well-formed inside the extent. */
  predicate IsKept(asked: Option<Span>, kept: Option<Span>, start: int, end: int) {
    kept == if asked.Some? && start <= asked.value.start <= asked.value.end <= end then asked else None
  }

  /** The extent that is recorded: cut off at the end of the file. */
  function Recorded(c: SymbolCall, length: nat): (r: (int, int)) {
    (if c.end > length then Min(c.start, length) else c.start, Min(c.end, length))
  }

  predicate IsInstanceOf(c: SymbolCall, length: nat, symbolID: int, info: InstanceInfo) {
    && info.symbolLocalId == symbolID && info.instanceType == c.instanceType && !info.folded
    && (info.start, info.end) == Recorded(c, length)
    && IsKept(c.spans.name, info.name, info.start, info.end)
    && IsKept(c.spans.signature, info.signature, info.start, info.end)
    && IsKept(c.spans.content, info.content, info.start, info.end)
  }

  /** The parent is stated exactly when it is a declared instance of the same file. */
  predicate IsStatedParent(t: InstanceTable, u: InstanceTable, c: SymbolCall, slot: Slot) {
    u.stated
    == if c.parent in t.slots && t.slots[c.parent].file == c.fileId then t.stated[slot := t.slots[c.parent].idx]
       else t.stated
  }

  /** One instance more in the file, as asked, or the one that is there already. */
  predicate IsDeclaredIn(p: Project, q: Project, c: SymbolCall, symbolID: int, id: int)
    requires 0 < c.fileId <= |p.objects|
  {
    var o := p.objects[c.fileId - 1];
    var (start, end) := Recorded(c, |o.content|);
    var key := InstanceKey(symbolID, c.fileId, start, end);
    if key in p.instances.idByKey then
      id == p.instances.idByKey[key] && q.objects == p.objects && q.instances == p.instances
    else
      && |q.objects| == |p.objects| && q.objects[c.fileId - 1] == o.(insts := q.objects[c.fileId - 1].insts)
      && (forall i | 0 <= i < |p.objects| && i != c.fileId - 1 :: q.objects[i] == p.objects[i])
      && var insts := q.objects[c.fileId - 1].insts;
         && |insts| == |o.insts| + 1 && insts[..|o.insts|] == o.insts
         && IsInstanceOf(c, |o.content|, symbolID, insts[|o.insts|])
         && id !in p.instances.slots && q.instances.slots == p.instances.slots[id := Slot(c.fileId, |o.insts|)]
         && IsStatedParent(p.instances, q.instances, c, Slot(c.fileId, |o.insts|))
  }

  lemma ParentComesFirst(p: Project, c: SymbolCall, slot: Slot)
    requires SlotsAgree(p.instances, p.objects, p.symbols, p.files.pathByID.Keys)
    requires 0 < c.fileId <= |p.objects| && slot == Slot(c.fileId, |p.objects[c.fileId - 1].insts|)
    ensures (c.parent != NO_PARENT && AcceptsParent(p.instances, slot, c.parent))
            <==> (c.parent in p.instances.slots && p.instances.slots[c.parent].file == c.fileId)
  {
    if c.parent in p.instances.slots {
      assert IsRecorded(p.instances, p.objects, p.symbols, p.files.pathByID.Keys, c.parent);
    }
  }

  /** A new instance is as asked, and not declared before. */
  lemma DeclareAsAsked(p: Project, c: SymbolCall, symbolID: int)
    requires Invariant(p) && Accepts(p, c)
    ensures var o := p.objects[c.fileId - 1];
            var (start, end) := Recorded(c, |o.content|);
            InstanceKey(symbolID, c.fileId, start, end) !in p.instances.idByKey ==>
              IsDeclaredIn(p, Declare(p, c, symbolID, start, end), c, symbolID, p.instances.nextID)
  {
    hide Invariant, AcceptsParent, IsInstanceOf, DeclaredInfo;
    var o := p.objects[c.fileId - 1];
    SlotsOf(p);
    ParentComesFirst(p, c, Slot(c.fileId, |o.insts|));
    NextIDIsFree(p.instances, p.objects, p.symbols, p.files.pathByID.Keys);
    var (start, end) := Recorded(c, |o.content|);
    DeclaredAsAsked(c, |o.content|, symbolID, start, end);
  }

  lemma SlotsOf(p: Project)
    requires Invariant(p)
    ensures SlotsAgree(p.instances, p.objects, p.symbols, p.files.pathByID.Keys)
  {}

  lemma InstanceAsAsked(p: Project, c: SymbolCall)
    requires Invariant(p) && Accepts(p, c)
    ensures var r := AddSymbol(p, c); IsDeclaredIn(p, r.project, c, r.symbolID, r.instanceID)
  {
    hide Invariant, NamedSymbol, Declare, IsDeclaredIn;
    var (start, end) := Recorded(c, |p.objects[c.fileId - 1].content|);
    var (named, symbolID) := NamedSymbol(p.symbols, p.files.pathByID[c.fileId], c);
    var q := p.(symbols := named);
    assert ClampedExtent(c.start, c.end, |p.objects[c.fileId - 1].content|) == (start, end);
    assert AddSymbol(p, c) == DeclareOnce(q, c, symbolID, start, end);
    DeclareAsAsked(p, c, symbolID);
    OtherSymbolsSame(p, q, c, symbolID, start, end);
  }

  /** The names of symbols play no part in declaring an instance. */
  lemma OtherSymbolsSame(p: Project, q: Project, c: SymbolCall, symbolID: int, start: int, end: int)
    requires IsObject(p.objects, c.fileId) && q == p.(symbols := q.symbols)
    requires (start, end) == Recorded(c, |p.objects[c.fileId - 1].content|)
    ensures InstanceKey(symbolID, c.fileId, start, end) in p.instances.idByKey ==>
              IsDeclaredIn(p, q, c, symbolID, p.instances.idByKey[InstanceKey(symbolID, c.fileId, start, end)])
    ensures InstanceKey(symbolID, c.fileId, start, end) !in p.instances.idByKey
            && IsDeclaredIn(p, Declare(p, c, symbolID, start, end), c, symbolID, p.instances.nextID) ==>
              IsDeclaredIn(p, Declare(q, c, symbolID, start, end), c, symbolID, p.instances.nextID)
  {
    hide IsInstanceOf, WithDeclared, DeclaredInfo;
  }

  lemma DeclaredAsAsked(c: SymbolCall, length: nat, symbolID: int, start: int, end: int)
    requires (start, end) == Recorded(c, length) && OffsetsFitInt32(c.start, c.end)
    ensures IsInstanceOf(c, length, symbolID, DeclaredInfo(c, symbolID, start, end))
  {}

  // ------------------------------------------------------------------
  // Module symbols

  /** The module of a file, when it still needs a symbol and is among `modules`. */
  predicate GetsModule(p: Project, modules: seq<int>, f: int) {
    && f in p.modules.ofFile && p.modules.ofFile[f] in modules
    && p.modules.ofFile[f] in p.modules.byID && p.modules.byID[p.modules.ofFile[f]].symbolID == 0
  }

  lemma FilesOfModule(p: Project, m: int, f: int)
    requires Invariant(p) && m in p.modules.byID
    ensures f in p.modules.byID[m].fileIDs <==> f in p.modules.ofFile && p.modules.ofFile[f] == m
    ensures forall i, j | 0 <= i < j < |p.modules.byID[m].fileIDs| ::
              p.modules.byID[m].fileIDs[i] != p.modules.byID[m].fileIDs[j]
  {
    hide SymbolsAgree, AllNamed, FilesAgree, SlotsAgree, StatedAgrees, EntriesAgree, LookupAgrees;
    assert ModuleAgrees(p.modules, p.files.pathByID.Keys, p.symbols.list, m);
    var files := p.modules.byID[m].fileIDs;
    if f in files {
      var i :| 0 <= i < |files| && files[i] == f;
    }
  }

  /** A file gets one instance over all of it, of a symbol with its own module's name. */
  ghost predicate HasModuleInstance(p: Project, q: Project, modules: seq<int>, f: int)
    requires IsObject(p.objects, f) && IsObject(q.objects, f)
  {
    if !GetsModule(p, modules, f) then q.objects[f - 1] == p.objects[f - 1]
    else
      var m := p.modules.ofFile[f];
      && m in q.modules.byID
      && var symbol := q.modules.byID[m].symbolID;
         && 0 < symbol <= |q.symbols.list|
         && q.symbols.list[symbol - 1] == Symbol(symbol, p.modules.byID[m].name, NoScope, Module)
         && q.objects[f - 1] == p.objects[f - 1].(insts := p.objects[f - 1].insts
              + [InstanceInfo(symbol, InstanceType.Containment, 0, ToInt32(|p.objects[f - 1].content|), false,
                              None, None, None)])
  }

  lemma OneModule(p: Project, m: int, f: int)
    requires Invariant(p) && m in p.modules.byID && f in p.files.pathByID
    ensures var q := CreateModuleSymbol(p, m);
            && |q.objects| == |p.objects| && IsObject(p.objects, f) && HasModuleInstance(p, q, [m], f)
            && p.symbols.list <= q.symbols.list && q.modules.ofFile == p.modules.ofFile
            && q.modules.byID.Keys == p.modules.byID.Keys
            && (forall k | k in p.modules.byID && k != m :: q.modules.byID[k] == p.modules.byID[k])
            && (q.modules.byID[m].symbolID == 0 ==> p.modules.byID[m].symbolID == 0)
            && q.modules.byID[m].symbolID != 0 && (p.modules.byID[m].symbolID != 0 ==> q == p)
  {
    hide SymbolsAgree, AllNamed, ModulesAgree, SlotsAgree, StatedAgrees, EntriesAgree, LookupAgrees,
      WithModuleInstances;
    FilesOfModule(p, m, f);
    ModuleInstancesAt(p.objects, p.files.pathByID.Keys, |p.symbols.list| + 1, p.modules.byID[m].fileIDs, f - 1);
    assert p.objects[f - 1].insts + [] == p.objects[f - 1].insts;
  }

  /** One module more after others. */
  lemma ModulesInTurn(p: Project, q: Project, r: Project, rest: seq<int>, m: int, f: int)
    requires IsObject(p.objects, f) && |q.objects| == |p.objects| && |r.objects| == |q.objects| && m !in rest
    requires HasModuleInstance(p, q, rest, f) && HasModuleInstance(q, r, [m], f)
    requires q.modules.ofFile == p.modules.ofFile && q.modules.byID.Keys == p.modules.byID.Keys
    requires r.modules.byID.Keys == q.modules.byID.Keys && q.symbols.list <= r.symbols.list
    requires m in p.modules.byID && q.modules.byID[m] == p.modules.byID[m]
    requires forall k | k in q.modules.byID && k != m :: r.modules.byID[k] == q.modules.byID[k]
    ensures HasModuleInstance(p, r, rest + [m], f)
  {
    hide ToInt32;
    assert forall k :: k in rest + [m] <==> k in rest || k == m;
  }

  /** Creating the symbols of different modules gives each file the instance of its own. */
  lemma {:induction false} ModulesAsAsked(p: Project, modules: seq<int>, f: int)
    requires Invariant(p) && f in p.files.pathByID
    requires forall m | m in modules :: m in p.modules.byID
    requires forall i, j | 0 <= i < j < |modules| :: modules[i] != modules[j]
    ensures var q := CreateEachModule(p, modules);
            && IsObject(p.objects, f) && |q.objects| == |p.objects| && HasModuleInstance(p, q, modules, f)
            && p.symbols.list <= q.symbols.list && q.modules.ofFile == p.modules.ofFile && q.files == p.files
            && q.modules.byID.Keys == p.modules.byID.Keys
            && forall k | k in p.modules.byID && k !in modules :: q.modules.byID[k] == p.modules.byID[k]
    decreases |modules|
  {
    if |modules| > 0 {
      hide Invariant, HasModuleInstance, Store.CreateModuleSymbol;
      var rest, m := modules[..|modules| - 1], modules[|modules| - 1];
      assert modules == rest + [m] && m !in rest;
      ModulesAsAsked(p, rest, f);
      CreateEachModuleKeeps(p, rest);
      var before := CreateEachModule(p, rest);
      OneModule(before, m, f);
      ModulesInTurn(p, before, CreateEachModule(p, modules), rest, m, f);
      SameFiles(before, m);
    } else {
      NoModuleAsked(p, f);
    }
  }

  lemma NoModuleAsked(p: Project, f: int)
    requires Invariant(p) && f in p.files.pathByID
    ensures IsObject(p.objects, f) && HasModuleInstance(p, p, [], f)
  {
    hide SymbolsAgree, AllNamed, ModulesAgree, SlotsAgree, StatedAgrees, EntriesAgree, LookupAgrees;
  }

  lemma SameFiles(p: Project, m: int)
    requires m in p.modules.byID
    ensures Store.CreateModuleSymbol(p, m).files == p.files
  {
    hide WithModuleInstances;
  }

  // ------------------------------------------------------------------
  // Imports

  /** Log entry `i` names a module with a symbol, from file `f`. */
  predicate ImportCounts(p: Project, f: int, i: int) {
    0 <= i < |p.imports| && p.imports[i].fromFileID == f && ImportTarget(p, p.imports[i]) != 0
  }

  function ImportToken(p: Project, i: int): Token
    requires 0 <= i < |p.imports|
  {
    Token(ImportTarget(p, p.imports[i]), ToInt32(p.imports[i].start), ToInt32(p.imports[i].end))
  }

  /** Import `i` leads to the reference that `key` stands for. */
  predicate LeadsTo(p: Project, i: int, key: RefKey) {
    && ImportCounts(p, key.fromFile, i) && key.fromFile in p.files.pathByID
    && ImportToken(p, i) == Token(key.toSymbolID, key.start, key.end)
  }

  lemma {:induction false} ImportsSeen(p: Project, m: nat, key: RefKey)
    requires m <= |p.imports|
    ensures key in ResolveImports(p, m).seen <==> exists i :: i < m && LeadsTo(p, i, key)
  {
    if m > 0 {
      ImportsSeen(p, m - 1, key);
      OneImportSeen(p, m - 1, key);
    } else {
      assert forall i | LeadsTo(p, i, key) :: i >= 0;
    }
  }

  lemma OneImportSeen(p: Project, m: nat, key: RefKey)
    requires m < |p.imports|
    ensures key in ResolveImports(p, m + 1).seen <==> key in ResolveImports(p, m).seen || LeadsTo(p, m, key)
  {
    hide ImportTarget, ToInt32;
  }

  /** `added` are the tokens of the first `m` imports of the file, each once. */
  ghost predicate AreImports(p: Project, f: int, m: nat, added: seq<RefInfo>) {
    && DistinctTokens(added) && (forall a | 0 <= a < |added| :: added[a].full == None)
    && forall token ::
         IsAmong(added, token) <==> exists i :: i < m && ImportCounts(p, f, i) && ImportToken(p, i) == token
  }

  lemma OneMoreImport(p: Project, f: int, m: nat, added: seq<RefInfo>)
    requires m < |p.imports| && AreImports(p, f, m, added) && ImportCounts(p, f, m)
    ensures var token := ImportToken(p, m);
            AreImports(p, f, m + 1, if IsAmong(added, token) then added
                                    else added + [RefInfo(token.toSymbolLocalId, token.start, token.end, None)])
  {
    hide ImportCounts, ImportToken;
    var token := ImportToken(p, m);
    var more := added + [RefInfo(token.toSymbolLocalId, token.start, token.end, None)];
    forall t ensures IsAmong(more, t) <==> IsAmong(added, t) || t == token {
      assert TokenOf(more[|added|]) == token;
      if a :| 0 <= a < |added| && TokenOf(added[a]) == t {
        assert TokenOf(more[a]) == t;
      }
    }
    forall a, b | 0 <= a < b < |more| && !IsAmong(added, token) ensures TokenOf(more[a]) != TokenOf(more[b]) {
      assert more[a] == added[a];
    }
  }

  /** Resolving the imports adds to a file one reference for each distinct module symbol and place it imports it at. */
  lemma {:induction false} ImportsAsAsked(p: Project, f: int, m: nat) returns (added: seq<RefInfo>)
    requires m <= |p.imports| && f in p.files.pathByID && IsObject(p.objects, f)
    ensures AreImports(p, f, m, added) && |ResolveImports(p, m).objects| == |p.objects|
    ensures ResolveImports(p, m).objects[f - 1] == p.objects[f - 1].(refs := p.objects[f - 1].refs + added)
  {
    hide AreImports, ImportTarget, ToInt32;
    if m == 0 {
      added := [];
      NoImports(p, f);
      assert p.objects[f - 1].refs + [] == p.objects[f - 1].refs;
    } else {
      var rest := ImportsAsAsked(p, f, m - 1);
      added := rest;
      if ImportCounts(p, f, m - 1) {
        var token := ImportToken(p, m - 1);
        OneMoreImport(p, f, m - 1, rest);
        ImportIsSeen(p, f, m - 1, rest);
        if !IsAmong(rest, token) {
          added := rest + [RefInfo(token.toSymbolLocalId, token.start, token.end, None)];
          assert p.objects[f - 1].refs + added
              == p.objects[f - 1].refs + rest + [RefInfo(token.toSymbolLocalId, token.start, token.end, None)];
        }
      } else {
        NotThisImport(p, f, m - 1, rest);
      }
    }
  }

  lemma NoImports(p: Project, f: int)
    ensures AreImports(p, f, 0, [])
  {}

  lemma NotThisImport(p: Project, f: int, m: nat, added: seq<RefInfo>)
    requires AreImports(p, f, m, added) && !ImportCounts(p, f, m)
    ensures AreImports(p, f, m + 1, added)
  {
    hide ImportCounts, ImportToken;
  }

  lemma ImportIsSeen(p: Project, f: int, m: nat, added: seq<RefInfo>)
    requires m < |p.imports| && AreImports(p, f, m, added) && ImportCounts(p, f, m) && f in p.files.pathByID
    ensures var token := ImportToken(p, m);
            IsAmong(added, token)
            <==> RefKey(token.toSymbolLocalId, f, token.start, token.end) in ResolveImports(p, m).seen
  {
    hide ImportToken, ResolveImports;
    var token := ImportToken(p, m);
    var key := RefKey(token.toSymbolLocalId, f, token.start, token.end);
    ImportsSeen(p, m, key);
    assert forall i :: LeadsTo(p, i, key) <==> ImportCounts(p, f, i) && ImportToken(p, i) == token;
  }
}
