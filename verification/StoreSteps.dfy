/** Every producer call that adds modules, files and symbols keeps the store's invariant. */
module StoreSteps {
  import opened Containment
  import opened Entities
  import opened Store
  import opened StoreInvariant

  lemma AddModuleKeeps(p: Project, name: string)
    requires Invariant(p)
    ensures Invariant(AddModule(p, name).0)
    ensures var (q, id) := AddModule(p, name);
            id in q.modules.byID && q.modules.byID[id].name == name && q.modules.byName[name] == id
  {
    var (q, id) := AddModule(p, name);
    var t, u := p.modules, q.modules;
    assert ModulesAgree(u, p.files.pathByID.Keys, p.symbols.list) by {
      forall m | m in u.byID ensures ModuleAgrees(u, p.files.pathByID.Keys, p.symbols.list, m) {
        if m in t.byID {
          assert ModuleAgrees(t, p.files.pathByID.Keys, p.symbols.list, m);
        }
      }
    }
  }

  // ------------------------------------------------------------------
  // AddFile

  lemma NewFileKeeps(p: Project, path: string, content: seq<int>, instanceType: InstanceType)
    requires Invariant(p) && path !in p.files.idByPath
    ensures Invariant(NewFile(p, path, content, instanceType))
  {
    hide FilesAgree, ModulesAgree, SlotsAgree, StatedAgrees, EntriesAgree, LookupAgrees;
    var q := NewFile(p, path, content, instanceType);
    var id := |p.objects| + 1;
    assert ObjectsGrow(p.objects, q.objects);
    GrowKeepsNamed(|p.symbols.list|, |q.symbols.list|, p.objects);
    assert AllNamed(|q.symbols.list|, q.objects);
    assert SymbolsAgree(q.symbols);
    NewFileKeepsFiles(p, path, content, instanceType);
    GrowKeepsModules(p.modules, p.files.pathByID.Keys, q.files.pathByID.Keys, p.symbols.list, q.symbols.list);
    GrowKeepsInstances(p, q);
  }

  lemma NewFileKeepsFiles(p: Project, path: string, content: seq<int>, instanceType: InstanceType)
    requires FilesAgree(p.files, p.objects) && path !in p.files.idByPath
    ensures FilesAgree(NewFile(p, path, content, instanceType).files, NewFile(p, path, content, instanceType).objects)
  {
    var q := NewFile(p, path, content, instanceType);
    assert |p.objects| + 1 !in p.files.pathByID;
    assert q.objects[|p.objects|].path == path;
  }

  lemma InModuleKeeps(t: ModuleTable, fileIDs: set<int>, list: seq<Symbol>, m: int, id: int)
    requires ModulesAgree(t, fileIDs, list) && m in t.byID && id in fileIDs && id !in t.ofFile
    ensures ModulesAgree(InModule(t, m, id), fileIDs, list)
  {
    var u := InModule(t, m, id);
    var files := t.byID[m].fileIDs;
    assert u.byID[m].fileIDs == files + [id];
    assert u.byID[m].fileIDs[|files|] == id;
    forall k | k in u.byID ensures ModuleAgrees(u, fileIDs, list, k) {
      assert ModuleAgrees(t, fileIDs, list, k);
    }
    forall f | f in u.ofFile ensures f in u.byID[u.ofFile[f]].fileIDs {
      if f != id {
        assert f in t.byID[t.ofFile[f]].fileIDs;
      }
    }
  }

  lemma AddFileKeeps(p: Project, moduleId: Option<int>, path: string, content: seq<int>, instanceType: InstanceType)
    requires Invariant(p)
    ensures var r := AddFile(p, moduleId, path, content, instanceType);
            r.Added? ==>
              && Invariant(r.project) && r.id in r.project.files.pathByID
              && r.project.files.pathByID[r.id] == path
  {
    var r := AddFile(p, moduleId, path, content, instanceType);
    if r.Added? && path !in p.files.idByPath {
      NewFileKeeps(p, path, content, instanceType);
      if moduleId.Some? {
        var q := NewFile(p, path, content, instanceType);
        assert forall f | f in p.modules.ofFile :: f in p.files.pathByID && IsObject(p.objects, f);
        InModuleKeeps(q.modules, q.files.pathByID.Keys, q.symbols.list, moduleId.value, r.id);
      }
    }
  }

  // ------------------------------------------------------------------
  // AddSymbol

  lemma WithSymbolKeeps(t: SymbolTable, name: string, scope: Scope, kind: SymbolKind)
    requires SymbolsAgree(t)
    ensures var (u, id) := WithSymbol(t, name, scope, kind);
            && SymbolsAgree(u) && SymbolsGrow(t, u)
            && IsDeclared(u, id) && KeyOfSymbol(u, id) == SymbolKey(name, scope)
  {}

  lemma WithFileNameKeeps(t: SymbolTable, path: string, name: string, symbolID: int)
    requires SymbolsAgree(t) && IsDeclared(t, symbolID)
    ensures SymbolsAgree(WithFileName(t, path, name, symbolID)) && SymbolsGrow(t, WithFileName(t, path, name, symbolID))
  {}

  lemma ProtoSpanInside(span: Option<Span>, start: int, end: int)
    ensures SpanInside(ProtoSpan(span, start, end), start, end)
    ensures span.Some? && 0 <= start && end <= MAX_INT32 && SpanInside(span, start, end)
            ==> ProtoSpan(span, start, end) == span
  {}

  lemma ClampedFits(start: int, end: int, limit: nat)
    requires OffsetsFitInt32(start, end)
    ensures var (s, e) := ClampedExtent(start, end, limit); OffsetsFitInt32(s, e) && e <= limit
  {}

  lemma DeclaredFits(c: SymbolCall, symbolID: int, start: int, end: int, length: nat)
    requires OffsetsFitInt32(start, end) && end <= length
    ensures FitsObject(DeclaredInfo(c, symbolID, start, end), length)
  {
    ProtoSpanInside(c.spans.name, start, end);
    ProtoSpanInside(c.spans.signature, start, end);
    ProtoSpanInside(c.spans.content, start, end);
  }

  lemma WithInstanceGrows(objects: seq<ObjectRec>, id: int, info: InstanceInfo)
    requires IsObject(objects, id)
    ensures ObjectsGrow(objects, WithInstance(objects, id, info))
    ensures WithInstance(objects, id, info)[id - 1].insts == objects[id - 1].insts + [info]
  {}

  lemma WithInstanceNamed(count: nat, objects: seq<ObjectRec>, id: int, info: InstanceInfo)
    requires AllNamed(count, objects) && 0 < info.symbolLocalId <= count
    ensures AllNamed(count, WithInstance(objects, id, info))
  {
    var b := WithInstance(objects, id, info);
    forall o | 0 <= o < |b| ensures NamesKnown(count, b[o]) {
      assert NamesKnown(count, objects[o]);
    }
  }

  /** What a call that gets through to a new instance has established. */
  ghost predicate CanDeclare(
      t: InstanceTable, objects: seq<ObjectRec>, symbols: SymbolTable, fileIDs: set<int>,
      c: SymbolCall, symbolID: int, start: int, end: int)
  {
    && c.fileId in fileIDs && IsObject(objects, c.fileId)
    && IsDeclared(symbols, symbolID) && KeyOfSymbol(symbols, symbolID) == SymbolKey(c.name, c.scope)
    && OffsetsFitInt32(start, end) && end <= |objects[c.fileId - 1].content|
    && InstanceKey(symbolID, c.fileId, start, end) !in t.idByKey
  }

  lemma DeclaredKeepsSlots(
      t: InstanceTable, objects: seq<ObjectRec>, symbols: SymbolTable, fileIDs: set<int>,
      c: SymbolCall, symbolID: int, start: int, end: int)
    requires SlotsAgree(t, objects, symbols, fileIDs)
             && CanDeclare(t, objects, symbols, fileIDs, c, symbolID, start, end)
    ensures SlotsAgree(WithDeclared(t, c, symbolID, start, end, |objects[c.fileId - 1].insts|),
                       WithInstance(objects, c.fileId, DeclaredInfo(c, symbolID, start, end)), symbols, fileIDs)
  {
    hide ProtoSpan, AcceptsParent, Listed, SpanInside;
    var u := WithDeclared(t, c, symbolID, start, end, |objects[c.fileId - 1].insts|);
    var b := WithInstance(objects, c.fileId, DeclaredInfo(c, symbolID, start, end));
    WithInstanceGrows(objects, c.fileId, DeclaredInfo(c, symbolID, start, end));
    DeclaredFits(c, symbolID, start, end, |objects[c.fileId - 1].content|);
    forall id | id in u.slots ensures IsRecorded(u, b, symbols, fileIDs, id) {
      if id in t.slots {
        assert IsRecorded(t, objects, symbols, fileIDs, id);
        GrowKeepsInfo(objects, b, t.slots[id]);
      }
    }
    forall key | key in u.idByKey
      ensures u.idByKey[key] in u.slots && InRange(b, u.slots[u.idByKey[key]])
              && KeyAt(b, u.slots[u.idByKey[key]]) == key
    {
      if key in t.idByKey {
        assert IsRecorded(t, objects, symbols, fileIDs, t.idByKey[key]);
        GrowKeepsInfo(objects, b, t.slots[t.idByKey[key]]);
      }
    }
  }

  /** Ids are handed out in order, so a new one is free. */
  lemma NextIDIsFree(t: InstanceTable, objects: seq<ObjectRec>, symbols: SymbolTable, fileIDs: set<int>)
    requires SlotsAgree(t, objects, symbols, fileIDs)
    ensures t.nextID !in t.slots
    ensures forall key | key in t.idByKey :: 0 < t.idByKey[key] < t.nextID
  {
    forall id | id in t.slots ensures id < t.nextID {
      assert IsRecorded(t, objects, symbols, fileIDs, id);
    }
    forall key | key in t.idByKey ensures 0 < t.idByKey[key] < t.nextID {
      assert IsRecorded(t, objects, symbols, fileIDs, t.idByKey[key]);
    }
  }

  lemma DeclaredKeepsStated(t: InstanceTable, c: SymbolCall, symbolID: int, start: int, end: int, idx: nat)
    requires StatedAgrees(t) && t.nextID !in t.slots
    requires forall id | id in t.slots :: 0 <= t.slots[id].idx
    ensures StatedAgrees(WithDeclared(t, c, symbolID, start, end, idx))
  {
    var u := WithDeclared(t, c, symbolID, start, end, idx);
    assert t.nextID in u.slots && u.slots[t.nextID] == Slot(c.fileId, idx);
    forall slot | IsTaken(t, slot) ensures IsTaken(u, slot) {
      var id :| id in t.slots && t.slots[id] == slot;
      assert id in u.slots && u.slots[id] == slot;
    }
    if AcceptsParent(t, Slot(c.fileId, idx), c.parent) {
      assert c.parent in t.slots && t.slots[c.parent] == Slot(c.fileId, t.slots[c.parent].idx);
      assert IsTaken(t, Slot(c.fileId, t.slots[c.parent].idx));
    }
  }

  lemma DeclaredKeepsEntries(
      t: InstanceTable, symbols: SymbolTable, c: SymbolCall, symbolID: int, start: int, end: int, idx: nat)
    requires EntriesAgree(t, symbols) && IsDeclared(symbols, symbolID)
    requires InstanceKey(symbolID, c.fileId, start, end) !in t.idByKey
    requires forall key | key in t.idByKey :: t.idByKey[key] < t.nextID
    ensures EntriesAgree(WithDeclared(t, c, symbolID, start, end, idx), symbols)
  {
    var u := WithDeclared(t, c, symbolID, start, end, idx);
    var f := c.fileId;
    var before := Listed(t.byFile, f);
    var entry := Entry(symbolID, f, c.kind, start, end, t.nextID);
    assert Listed(u.byFile, f) == before + [entry];
    assert forall g | g != f :: Listed(u.byFile, g) == Listed(t.byFile, g);
    forall g, i | 0 <= i < |Listed(u.byFile, g)| ensures EntryAgrees(u.idByKey, symbols, g, Listed(u.byFile, g)[i]) {
      if g != f || i < |before| {
        assert EntryAgrees(t.idByKey, symbols, g, Listed(t.byFile, g)[i]);
      }
    }
    forall g ensures Ascending(IDsOf(Listed(u.byFile, g))) {
      assert Ascending(IDsOf(Listed(t.byFile, g)));
      if g == f {
        forall i | 0 <= i < |before| ensures IDsOf(before + [entry])[i] == IDsOf(before)[i] < t.nextID {
          assert EntryAgrees(t.idByKey, symbols, f, before[i]);
        }
      }
    }
    forall key | key in u.idByKey ensures HasEntry(u.byFile, key) {
      if key in t.idByKey {
        assert HasEntry(t.byFile, key);
        var i :| 0 <= i < |Listed(t.byFile, key.fileID)| && KeyOfEntry(Listed(t.byFile, key.fileID)[i]) == key;
        assert KeyOfEntry(Listed(u.byFile, key.fileID)[i]) == key;
      } else {
        assert KeyOfEntry(Listed(u.byFile, f)[|before|]) == key;
      }
    }
  }

  lemma DeclaredKeepsLookup(
      t: InstanceTable, symbols: SymbolTable, c: SymbolCall, symbolID: int, start: int, end: int, idx: nat)
    requires LookupAgrees(t, symbols) && t.nextID > 0
    requires IsDeclared(symbols, symbolID) && KeyOfSymbol(symbols, symbolID) == SymbolKey(c.name, c.scope)
    ensures LookupAgrees(WithDeclared(t, c, symbolID, start, end, idx), symbols)
  {
    var u := WithDeclared(t, c, symbolID, start, end, idx);
    var f, mine := c.fileId, LookupKey(c.name, c.scope, c.kind);
    var entries := Listed(t.byFile, f);
    assert Listed(u.byFile, f) == entries + [Entry(symbolID, f, c.kind, start, end, t.nextID)];
    assert forall g | g != f :: Listed(u.byFile, g) == Listed(t.byFile, g);
    assert Scans(u.byFile, symbols, mine, f, |entries|, t.nextID);
    forall key ensures LookupIsScan(u, symbols, key) {
      assert LookupIsScan(t, symbols, key);
      var ids := Listed(t.byLookup, key);
      assert Listed(u.byLookup, key) == if key == mine then ids + [t.nextID] else ids;
      forall id ensures IsFound(u.byFile, symbols, key, id)
        <==> IsFound(t.byFile, symbols, key, id) || (key == mine && id == t.nextID) {
        if g, i :| Scans(t.byFile, symbols, key, g, i, id) {
          assert Scans(u.byFile, symbols, key, g, i, id);
        }
        if g, i :| Scans(u.byFile, symbols, key, g, i, id) {
          assert Scans(t.byFile, symbols, key, g, i, id) || (g == f && i == |entries|);
        }
      }
    }
  }

  /** The last part of AddSymbol, once the symbol is known to be there. */
  lemma DeclaredKeeps(p: Project, c: SymbolCall, symbolID: int, start: int, end: int)
    requires Invariant(p)
    requires CanDeclare(p.instances, p.objects, p.symbols, p.files.pathByID.Keys, c, symbolID, start, end)
    ensures Invariant(Declare(p, c, symbolID, start, end))
  {
    var t := p.instances;
    var idx := |p.objects[c.fileId - 1].insts|;
    var info := DeclaredInfo(c, symbolID, start, end);
    var b := WithInstance(p.objects, c.fileId, info);
    WithInstanceGrows(p.objects, c.fileId, info);
    WithInstanceNamed(|p.symbols.list|, p.objects, c.fileId, info);
    GrowKeepsFiles(p.files, p.objects, b);
    DeclaredKeepsSlots(t, p.objects, p.symbols, p.files.pathByID.Keys, c, symbolID, start, end);
    NextIDIsFree(t, p.objects, p.symbols, p.files.pathByID.Keys);
    forall id | id in t.slots ensures 0 <= t.slots[id].idx {
      assert IsRecorded(t, p.objects, p.symbols, p.files.pathByID.Keys, id);
    }
    DeclaredKeepsStated(t, c, symbolID, start, end, idx);
    DeclaredKeepsEntries(t, p.symbols, c, symbolID, start, end, idx);
    DeclaredKeepsLookup(t, p.symbols, c, symbolID, start, end, idx);
  }

  lemma GrownSymbolsKeep(p: Project, t: SymbolTable)
    requires Invariant(p) && SymbolsAgree(t) && SymbolsGrow(p.symbols, t)
    ensures Invariant(p.(symbols := t))
  {
    GrowKeepsNamed(|p.symbols.list|, |t.list|, p.objects);
    GrowKeepsModules(p.modules, p.files.pathByID.Keys, p.files.pathByID.Keys, p.symbols.list, t.list);
    GrowKeepsInstances(p, p.(symbols := t));
  }

  lemma NamedSymbolKeeps(t: SymbolTable, path: string, c: SymbolCall)
    requires SymbolsAgree(t)
    ensures var (u, id) := NamedSymbol(t, path, c);
            && SymbolsAgree(u) && SymbolsGrow(t, u)
            && IsDeclared(u, id) && KeyOfSymbol(u, id) == SymbolKey(c.name, c.scope)
  {
    var (known, id) := WithSymbol(t, c.name, c.scope, c.kind);
    WithSymbolKeeps(t, c.name, c.scope, c.kind);
    WithFileNameKeeps(known, path, c.name, id);
  }

  /** The last step, on a project that already has the symbol. */
  lemma DeclareOnceKeeps(q: Project, c: SymbolCall, symbolID: int, start: int, end: int)
    requires Invariant(q) && c.fileId in q.files.pathByID && IsObject(q.objects, c.fileId)
    requires IsDeclared(q.symbols, symbolID) && KeyOfSymbol(q.symbols, symbolID) == SymbolKey(c.name, c.scope)
    requires OffsetsFitInt32(start, end) && end <= |q.objects[c.fileId - 1].content|
    ensures Invariant(DeclareOnce(q, c, symbolID, start, end).project)
  {
    if InstanceKey(symbolID, c.fileId, start, end) !in q.instances.idByKey {
      DeclaredKeeps(q, c, symbolID, start, end);
    }
  }

  lemma NamedDeclareKeeps(p: Project, c: SymbolCall, named: SymbolTable, symbolID: int, start: int, end: int)
    requires Invariant(p) && c.fileId in p.files.pathByID && IsObject(p.objects, c.fileId)
    requires SymbolsAgree(named) && SymbolsGrow(p.symbols, named)
    requires IsDeclared(named, symbolID) && KeyOfSymbol(named, symbolID) == SymbolKey(c.name, c.scope)
    requires OffsetsFitInt32(start, end) && end <= |p.objects[c.fileId - 1].content|
    ensures Invariant(DeclareOnce(p.(symbols := named), c, symbolID, start, end).project)
  {
    GrownSymbolsKeep(p, named);
    DeclareOnceKeeps(p.(symbols := named), c, symbolID, start, end);
  }

  lemma AddSymbolKeeps(p: Project, c: SymbolCall)
    requires Invariant(p) && Accepts(p, c)
    ensures Invariant(AddSymbol(p, c).project)
  {
    hide AllNamed, FilesAgree, ModulesAgree, SlotsAgree, StatedAgrees, EntriesAgree, LookupAgrees, NamedSymbol;
    var (named, symbolID) := NamedSymbol(p.symbols, p.files.pathByID[c.fileId], c);
    NamedSymbolKeeps(p.symbols, p.files.pathByID[c.fileId], c);
    var limit := |p.objects[c.fileId - 1].content|;
    var (start, end) := ClampedExtent(c.start, c.end, limit);
    ClampedFits(c.start, c.end, limit);
    var r := DeclareOnce(p.(symbols := named), c, symbolID, start, end);
    assert AddSymbol(p, c) == r;
    assert Invariant(r.project) by {
      NamedDeclareKeeps(p, c, named, symbolID, start, end);
    }
  }
}
