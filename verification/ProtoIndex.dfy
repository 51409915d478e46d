/** The index itself: its fields, updated call by call, against the project they stand for. */
module ProtoIndex {
  import opened Collections
  import opened Containment
  import opened Entities
  import opened Numbering
  import opened Paths
  import opened Store
  import opened Directories
  import opened Runs
  import opened StoreInvariant
  import opened Shape
  import opened Determined

  function RefInfos(refs: seq<SymbolRef>): (infos: seq<RefInfo>)
    ensures |infos| == |refs|
  {
    seq(|refs|, k requires 0 <= k < |refs| => refs[k].info)
  }

  function ObjectView(o: Object): ObjectRec
    reads o
  {
    ObjectRec(o.path, o.content, Infos(o.symbolInstances), RefInfos(o.refs))
  }

  ghost function ObjectViews(objects: seq<Object>): (r: seq<ObjectRec>)
    reads objects
    ensures |r| == |objects|
  {
    seq(|objects|, i requires 0 <= i < |objects| reads objects => ObjectView(objects[i]))
  }

  /** An object in its place, listing no instance or reference twice. */
  ghost predicate IsInPlace(o: Object, id: int)
    reads o
  {
    o.localId == id && Distinct(o.symbolInstances) && Distinct(o.refs)
  }

  /** Two objects that share no instance and no reference. */
  ghost predicate ShareNothing(a: Object, b: Object)
    reads a, b
  {
    && (forall x | x in a.symbolInstances :: x !in b.symbolInstances)
    && (forall x | x in a.refs :: x !in b.refs)
  }

  /** Objects numbered in order, each with instances and references of its own. */
  ghost predicate Apart(objects: seq<Object>)
    reads objects
  {
    && (forall i {:trigger IsInPlace(objects[i], i + 1)} | 0 <= i < |objects| :: IsInPlace(objects[i], i + 1))
    && (forall i, j {:trigger ShareNothing(objects[i], objects[j])} | 0 <= i < j < |objects| ::
          ShareNothing(objects[i], objects[j]))
  }

  lemma InPlace(objects: seq<Object>, i: nat)
    requires Apart(objects) && i < |objects|
    ensures IsInPlace(objects[i], i + 1)
  {}

  /** Different positions hold different objects. */
  lemma PlacesDiffer(objects: seq<Object>, i: nat, j: nat)
    requires Apart(objects) && i < j < |objects|
    ensures objects[i] != objects[j]
  {
    assert IsInPlace(objects[i], i + 1) && IsInPlace(objects[j], j + 1);
  }

  /** Every instance and every reference. */
  ghost function Parts(objects: seq<Object>): (parts: set<object>)
    reads objects
    ensures forall part | part in parts :: part is SymbolInstance || part is SymbolRef
  {
    (set o, x | o in objects && x in o.symbolInstances :: x) + (set o, x | o in objects && x in o.refs :: x)
  }

  /** Appends a new instance to one object of several. */
  method AppendInstance(objects: seq<Object>, file: Object, info: InstanceInfo)
    requires Apart(objects) && file in objects
    modifies file
    ensures Apart(objects) && forall part {:trigger part in Parts(objects)} | part in Parts(objects) ::
              part in old(Parts(objects)) || fresh(part)
    ensures ObjectViews(objects) == WithInstance(old(ObjectViews(objects)), file.localId, info)
  {
    ghost var at: nat :| at < |objects| && objects[at] == file;
    InPlace(objects, at);
    forall i: nat | i < |objects| && i != at ensures objects[i] != file {
      PlacesDiffer(objects, if i < at then i else at, if i < at then at else i);
    }
    var inst := new SymbolInstance(info);
    file.symbolInstances := file.symbolInstances + [inst];
    forall i | 0 <= i < |objects| ensures IsInPlace(objects[i], i + 1) {
      assert old(IsInPlace(objects[i], i + 1));
    }
    forall i, j | 0 <= i < j < |objects| ensures ShareNothing(objects[i], objects[j]) {
      assert old(ShareNothing(objects[i], objects[j]));
    }
    assert Infos(file.symbolInstances) == Infos(old(file.symbolInstances)) + [info];
    assert forall i | 0 <= i < |objects| && i != at :: ObjectView(objects[i]) == old(ObjectView(objects[i]));
  }

  /** Appends a new reference to one object of several. */
  method AppendRef(objects: seq<Object>, file: Object, info: RefInfo)
    requires Apart(objects) && file in objects
    modifies file
    ensures Apart(objects) && forall part {:trigger part in Parts(objects)} | part in Parts(objects) ::
              part in old(Parts(objects)) || fresh(part)
    ensures ObjectViews(objects) == WithRef(old(ObjectViews(objects)), file.localId, info)
  {
    ghost var at: nat :| at < |objects| && objects[at] == file;
    InPlace(objects, at);
    forall i: nat | i < |objects| && i != at ensures objects[i] != file {
      PlacesDiffer(objects, if i < at then i else at, if i < at then at else i);
    }
    var ref := new SymbolRef(info);
    file.refs := file.refs + [ref];
    forall i | 0 <= i < |objects| ensures IsInPlace(objects[i], i + 1) {
      assert old(IsInPlace(objects[i], i + 1));
    }
    forall i, j | 0 <= i < j < |objects| ensures ShareNothing(objects[i], objects[j]) {
      assert old(ShareNothing(objects[i], objects[j]));
    }
    assert RefInfos(file.refs) == RefInfos(old(file.refs)) + [info];
    assert forall i | 0 <= i < |objects| && i != at :: ObjectView(objects[i]) == old(ObjectView(objects[i]));
  }

  /** A further object in its place, with nothing of the others. */
  lemma OneMoreObject(objects: seq<Object>, o: Object)
    requires Apart(objects) && IsInPlace(o, |objects| + 1)
    requires forall i | 0 <= i < |objects| :: ShareNothing(objects[i], o)
    ensures Apart(objects + [o])
    ensures ObjectViews(objects + [o]) == ObjectViews(objects) + [ObjectView(o)]
    ensures forall part | part in Parts(objects + [o]) ::
              part in Parts(objects) || part in o.symbolInstances || part in o.refs
  {
    var more := objects + [o];
    forall i | 0 <= i < |more| ensures IsInPlace(more[i], i + 1) {
      if i < |objects| {
        assert IsInPlace(objects[i], i + 1);
      }
    }
    forall i, j | 0 <= i < j < |more| ensures ShareNothing(more[i], more[j]) {
      if j < |objects| {
        assert ShareNothing(objects[i], objects[j]);
      }
    }
  }

  /** Symbol and sentinel of each directory, found by its place among `dirs`. */
  ghost predicate IsDirTable(
      dirSymbolID: map<string, int>, dirSentinel: map<string, Object>, dirs: seq<string>, first: int,
      sentinels: seq<Object>)
  {
    && |sentinels| == |dirs|
    && (forall d :: d in dirSymbolID <==> DirIndex(dirs, d) >= 0)
    && (forall d :: d in dirSentinel <==> DirIndex(dirs, d) >= 0)
    && (forall d | d in dirSymbolID :: dirSymbolID[d] == first + DirIndex(dirs, d))
    && (forall d | d in dirSentinel :: dirSentinel[d] == sentinels[DirIndex(dirs, d)])
  }

  lemma NoDirectoryYet(first: int)
    ensures IsDirTable(map[], map[], [], first, [])
    ensures DirSymbols(first, []) == [] && Sentinels(first, []) == []
  {}

  lemma OneMoreDirectory(
      dirSymbolID: map<string, int>, dirSentinel: map<string, Object>, dirs: seq<string>, first: int,
      sentinels: seq<Object>, dir: string, sentinel: Object)
    requires IsDirTable(dirSymbolID, dirSentinel, dirs, first, sentinels)
    ensures IsDirTable(dirSymbolID[dir := first + |dirs|], dirSentinel[dir := sentinel], dirs + [dir], first,
                       sentinels + [sentinel])
    ensures DirSymbols(first, dirs + [dir])
            == DirSymbols(first, dirs) + [Symbol(first + |dirs|, dir, NoScope, Directory)]
    ensures Sentinels(first, dirs + [dir])
            == Sentinels(first, dirs)
              + [ObjectRec(dir, [], [WholeInstance(first + |dirs|, InstanceType.Sentinel, 0)], [])]
  {
    var longer := dirs + [dir];
    assert longer[..|longer| - 1] == dirs;
  }

  /** An object with instances, numbered from its ranges, its symbols' kinds and the parents stated for it. */
  ghost predicate IsNumberedObject(o: Object, list: seq<Symbol>, t: InstanceTable)
    reads o, o.symbolInstances, o.refs
  {
    var insts := o.symbolInstances;
    |insts| > 0 ==>
      IsNumbered(Extents(Infos(insts), RankBySymbol(list)), StatedOf(t, o.localId, |insts|), insts, o.refs)
  }

  lemma PartsOfObject(objects: seq<Object>, i: nat)
    requires i < |objects|
    ensures forall x | x in objects[i].symbolInstances :: x in Parts(objects)
    ensures forall x | x in objects[i].refs :: x in Parts(objects)
  {}

  method RankSymbols(list: seq<Symbol>) returns (rank: map<int, nat>)
    ensures rank == RankBySymbol(list)
  {
    rank := map[];
    for i := 0 to |list|
      invariant rank == RankBySymbol(list[..i])
    {
      assert list[..i + 1][..i] == list[..i];
      rank := rank[list[i].localId := KindRank(list[i].kind)];
    }
    assert list[..|list|] == list;
  }

  method CollectStated(t: InstanceTable, f: int, n: nat) returns (stated: map<int, int>)
    ensures stated == StatedOf(t, f, n)
  {
    stated := map[];
    for k := 0 to n
      invariant stated == StatedOf(t, f, k)
    {
      if Slot(f, k) in t.stated {
        stated := stated[k := t.stated[Slot(f, k)]];
      }
    }
  }

  predicate Matches(e: Entry, symbolID: int, kind: SymbolKind) {
    e.symbolID == symbolID && e.kind == kind
  }

  /** Entry `i` is the only one of that symbol and kind. */
  ghost predicate IsOnlyMatch(entries: seq<Entry>, symbolID: int, kind: SymbolKind, i: int) {
    && 0 <= i < |entries| && Matches(entries[i], symbolID, kind)
    && forall j | 0 <= j < |entries| && Matches(entries[j], symbolID, kind) :: j == i
  }

  /** Collects the matches and insists on exactly one; -1 otherwise. */
  method FindOnlyMatch(entries: seq<Entry>, symbolID: int, kind: SymbolKind) returns (at: int)
    ensures at < 0 ==> forall i :: !IsOnlyMatch(entries, symbolID, kind, i)
    ensures at >= 0 ==> IsOnlyMatch(entries, symbolID, kind, at)
  {
    var matches: seq<nat> := [];
    for i := 0 to |entries|
      invariant forall m | 0 <= m < |matches| :: matches[m] < i && Matches(entries[matches[m]], symbolID, kind)
      invariant forall m, n | 0 <= m < n < |matches| :: matches[m] < matches[n]
      invariant forall k: nat | k < i && Matches(entries[k], symbolID, kind) ::
                  exists m :: 0 <= m < |matches| && matches[m] == k
    {
      ghost var before := matches;
      if entries[i].symbolID == symbolID && entries[i].kind == kind {
        matches := matches + [i];
        assert matches[|before|] == i;
      }
      assert before <= matches;
    }
    if |matches| > 1 {
      assert Matches(entries[matches[0]], symbolID, kind) && Matches(entries[matches[1]], symbolID, kind);
      assert matches[0] < matches[1];
    }
    return if |matches| == 1 then matches[0] else -1;
  }

  /** The index, its bookkeeping maps grouped as in the project they stand for. */
  class ProtoIndex {
    var symbols: SymbolTable
    var objects: seq<Object>
    var nextFileID: int
    var nextSymbolID: int
    var modules: ModuleTable
    var fileByID: map<int, Object>
    var files: FileTable
    var instances: InstanceTable
    var referencesLog: seq<Reference>
    var moduleImportsLog: seq<ModuleImport>
    var directorySymbolsCreated: bool

    /** The project these fields stand for. */
    ghost function View(): Project
      reads this, objects
    {
      Project(symbols, ObjectViews(objects), modules, files, instances,
              referencesLog, moduleImportsLog, directorySymbolsCreated)
    }

    /** Counters and object pointers agree with the lists they index. */
    ghost predicate Linked()
      reads this, objects
    {
      && nextFileID == |objects| + 1 && nextSymbolID == |symbols.list| + 1
      && Apart(objects)
      && fileByID.Keys == files.pathByID.Keys
      && (forall id | id in fileByID :: 0 < id <= |objects| && fileByID[id] == objects[id - 1])
      && (forall path | path in files.idByPath :: files.idByPath[path] in fileByID)
    }

    /** The bookkeeping agrees with the project, and the project with itself. */
    ghost predicate Valid()
      reads this, objects
    {
      Linked() && Sound(View())
    }

    constructor ()
      ensures Valid() && View() == EMPTY && objects == []
    {
      symbols, modules, files, instances := EMPTY.symbols, EMPTY.modules, EMPTY.files, EMPTY.instances;
      objects, fileByID := [], map[];
      nextFileID, nextSymbolID := 1, 1;
      referencesLog, moduleImportsLog := [], [];
      directorySymbolsCreated := false;
      new;
      EmptyKeeps();
    }

    method AddModule(moduleName: string) returns (id: int)
      requires Valid()
      modifies this`modules
      ensures Valid()
      ensures (View(), id) == Store.AddModule(old(View()), moduleName)
    {
      hide ObjectViews, Apart, Sound;
      StepKeeps(View(), CallAddModule(moduleName));
      if moduleName in modules.byName {
        return modules.byName[moduleName];
      }
      id := modules.nextID;
      modules := modules.(nextID := id + 1,
                          byName := modules.byName[moduleName := id],
                          byID := modules.byID[id := ModuleInfo(moduleName, 0, [])]);
    }

    method AddModuleImport(imp: ModuleImport)
      requires Valid()
      modifies this`moduleImportsLog
      ensures Valid()
      ensures View() == old(View()).(imports := old(View()).imports + [imp])
    {
      hide ObjectViews, Apart, Sound;
      StepKeeps(View(), CallAddModuleImport(imp));
      moduleImportsLog := moduleImportsLog + [imp];
    }

    /** A new symbol at the end of the project's list. */
    method NewSymbol(name: string, scope: Scope, kind: SymbolKind) returns (id: int)
      requires Linked()
      modifies this`symbols, this`nextSymbolID
      ensures Linked() && id == |old(symbols).list| + 1
      ensures symbols == old(symbols).(list := old(symbols).list + [Symbol(id, name, scope, kind)])
      ensures View() == old(View()).(symbols := symbols)
    {
      hide ObjectViews, Apart;
      id := nextSymbolID;
      nextSymbolID := nextSymbolID + 1;
      symbols := symbols.(list := symbols.list + [Symbol(id, name, scope, kind)]);
    }

    /** A new object at the end of the project's list, with one instance. */
    method NewObject(path: string, content: seq<int>, info: InstanceInfo) returns (o: Object)
      requires Linked()
      modifies this`objects, this`nextFileID
      ensures Linked()
      ensures forall part {:trigger part in Parts(objects)} | part in Parts(objects) ::
                part in old(Parts(objects)) || fresh(part)
      ensures fresh(o) && objects == old(objects) + [o] && o.localId == |objects|
      ensures View() == old(View()).(objects := old(View()).objects + [ObjectRec(path, content, [info], [])])
    {
      hide ObjectViews, Parts, Apart;
      o := new Object(nextFileID, path, content);
      var inst := new SymbolInstance(info);
      o.symbolInstances := [inst];
      forall i | 0 <= i < |objects| ensures ShareNothing(objects[i], o) {
        InPlace(objects, i);
      }
      OneMoreObject(objects, o);
      nextFileID := nextFileID + 1;
      objects := objects + [o];
      assert Infos(o.symbolInstances) == [info] && RefInfos(o.refs) == [];
    }

    /** The object and the FILE symbol of a path not seen before. */
    method RegisterFile(path: string, contents: seq<int>, instanceType: InstanceType) returns (id: int)
      requires Linked() && path !in files.idByPath
      modifies this`symbols, this`nextSymbolID, this`objects, this`nextFileID, this`fileByID, this`files
      ensures Linked() && |objects| == |old(objects)| + 1 && objects[..|old(objects)|] == old(objects)
              && fresh(objects[|old(objects)|])
      ensures View() == NewFile(old(View()), path, contents, instanceType) && id == |objects|
    {
      hide ObjectViews, Apart;
      var symbolID := NewSymbol(path, NoScope, File);
      var file := NewObject(path, contents, WholeInstance(symbolID, instanceType, |contents|));
      id := file.localId;
      fileByID := fileByID[id := file];
      files := FileTable(files.pathByID[id := path], files.idByPath[path := id]);
    }

    /** -1 when the module is unknown or the path is taken by other contents. */
    method AddFile(
        moduleId: Option<int>, path: string, contents: seq<int>, instanceType: InstanceType) returns (id: int)
      requires Valid()
      modifies this
      ensures Valid() && old(objects) <= objects && |objects| <= |old(objects)| + 1
      ensures |objects| > |old(objects)| ==> fresh(objects[|old(objects)|])
      ensures var r := Store.AddFile(old(View()), moduleId, path, contents, instanceType);
              if r.Added? then View() == r.project && id == r.id else View() == old(View()) && id == -1
    {
      hide Apart, Sound;
      StepKeeps(View(), CallAddFile(moduleId, path, contents, instanceType));
      if moduleId.Some? && moduleId.value !in modules.byID {
        return -1;
      }
      if path in files.idByPath {
        var known := files.idByPath[path];
        if fileByID[known].content != contents {
          return -1;
        }
        return known;
      }
      id := RegisterFile(path, contents, instanceType);
      if moduleId.Some? {
        var info := modules.byID[moduleId.value];
        modules := modules.(ofFile := modules.ofFile[id := moduleId.value],
                            byID := modules.byID[moduleId.value := info.(fileIDs := info.fileIDs + [id])]);
      }
    }

    /** (-1, -1) when the call is rejected. */
    method AddSymbol(c: SymbolCall) returns (symbolID: int, instanceID: int)
      requires Valid()
      modifies this, objects
      ensures Valid() && objects == old(objects)
      ensures var r := Store.AddSymbol(old(View()), c);
              if r.AddedSymbol? then View() == r.project && symbolID == r.symbolID && instanceID == r.instanceID
              else View() == old(View()) && symbolID == instanceID == -1
    {
      hide Apart, Sound, Declare, Listed;
      StepKeeps(View(), CallAddSymbol(c));
      if c.moduleId !in modules.byID { return -1, -1; }
      if c.fileId !in fileByID { return -1, -1; }
      if c.kind == Unspecified { return -1, -1; }
      if c.start > MAX_INT32 || c.start < 0 { return -1, -1; }
      if c.end > MAX_INT32 || c.end < 0 { return -1, -1; }
      var file := fileByID[c.fileId];
      symbolID := SymbolOf(c);
      var start, end, limit := c.start, c.end, |file.content|;
      if end > limit {
        end := limit;
        if start > limit {
          start := limit;
        }
      }
      var key := InstanceKey(symbolID, c.fileId, start, end);
      if key in instances.idByKey {
        return symbolID, instances.idByKey[key];
      }
      instanceID := Record(c, file, symbolID, start, end);
    }

    /** The symbol a call is about, created if need be, and named in its file. */
    method SymbolOf(c: SymbolCall) returns (symbolID: int)
      requires Linked() && c.fileId in files.pathByID
      modifies this`symbols, this`nextSymbolID
      ensures Linked()
      ensures var r := NamedSymbol(old(symbols), files.pathByID[c.fileId], c);
              View() == old(View()).(symbols := r.0) && symbolID == r.1
    {
      hide ObjectViews, Apart;
      var key := SymbolKey(c.name, c.scope);
      if key in symbols.byKey {
        symbolID := symbols.byKey[key];
      } else {
        symbolID := NewSymbol(c.name, c.scope, c.kind);
        symbols := symbols.(byKey := symbols.byKey[key := symbolID]);
      }
      var path := files.pathByID[c.fileId];
      if path != "" {
        symbols := symbols.(byFileAndName := symbols.byFileAndName[FileName(path, c.name) := symbolID]);
      }
    }

    /** Appends and records a new instance. */
    method Record(c: SymbolCall, file: Object, symbolID: int, start: int, end: int) returns (id: int)
      requires Linked() && c.fileId in fileByID && file == fileByID[c.fileId]
      modifies this`instances, file
      ensures Linked() && id == old(instances).nextID
      ensures View() == Declare(old(View()), c, symbolID, start, end)
    {
      hide Apart, WithInstance, DeclaredInfo, Parts;
      InPlace(objects, c.fileId - 1);
      var idx := |file.symbolInstances|;
      AppendInstance(objects, file, DeclaredInfo(c, symbolID, start, end));
      id := instances.nextID;
      var slot := Slot(c.fileId, idx);
      var stated := instances.stated;
      if c.parent != NO_PARENT && AcceptsParent(instances, slot, c.parent) {
        stated := stated[slot := instances.slots[c.parent].idx];
      }
      var entry := Entry(symbolID, c.fileId, c.kind, start, end, id);
      var lookup := LookupKey(c.name, c.scope, c.kind);
      instances := InstanceTable(
        id + 1,
        instances.idByKey[InstanceKey(symbolID, c.fileId, start, end) := id],
        instances.byFile[c.fileId := Listed(instances.byFile, c.fileId) + [entry]],
        instances.byLookup[lookup := Listed(instances.byLookup, lookup) + [id]],
        instances.slots[id := slot],
        stated);
      assert instances == WithDeclared(old(instances), c, symbolID, start, end, idx);
      hide WithDeclared, AcceptsParent, Listed;
    }

    // ----------------------------------------------------------------
    // Finding what has been declared

    /** All declared instances of that name, scope and kind in any file, oldest first. */
    method FindSymbolInstanceId(name: string, scope: Scope, kind: SymbolKind) returns (ids: seq<int>)
      requires Valid()
      ensures forall id :: id in ids <==> IsFound(instances.byFile, symbols, LookupKey(name, scope, kind), id)
      ensures Ascending(ids)
    {
      hide ObjectViews, Linked, Shaped, SymbolsAgree, AllNamed, FilesAgree, ModulesAgree, SlotsAgree, StatedAgrees,
        EntriesAgree;
      var key := LookupKey(name, scope, kind);
      ids := if key in instances.byLookup then instances.byLookup[key] else [];
      assert LookupIsScan(instances, symbols, key);
    }

    /** The one instance of the symbol and kind in a file; (-1, -1) when there is none or more than one. */
    method FindSymbolId(
        fileId: int, name: string, scope: Scope, kind: SymbolKind) returns (symbolID: int, instanceID: int)
      requires Valid()
      ensures var key, entries := SymbolKey(name, scope), Listed(instances.byFile, fileId);
              if symbolID == -1 then
                instanceID == -1
                  && (key in symbols.byKey ==> forall i :: !IsOnlyMatch(entries, symbols.byKey[key], kind, i))
              else
                && key in symbols.byKey && symbolID == symbols.byKey[key]
                && exists i :: IsOnlyMatch(entries, symbolID, kind, i) && instanceID == entries[i].instanceID
    {
      hide ObjectViews, Linked, Shaped, AllNamed, FilesAgree, ModulesAgree, SlotsAgree, StatedAgrees, EntriesAgree,
        LookupAgrees;
      var key := SymbolKey(name, scope);
      if key !in symbols.byKey { return -1, -1; }
      symbolID := symbols.byKey[key];
      var entries := if fileId in instances.byFile then instances.byFile[fileId] else [];
      var at := FindOnlyMatch(entries, symbolID, kind);
      if at < 0 { return -1, -1; }
      assert IsSymbol(symbols, symbolID) && IsOnlyMatch(Listed(instances.byFile, fileId), symbolID, kind, at);
      return symbolID, entries[at].instanceID;
    }

    method AddReference(ref: Reference) returns (ok: bool)
      requires Valid()
      modifies this`referencesLog
      ensures Valid() && ok == IsAcceptable(ref)
      ensures View() == if ok then Store.AddReference(old(View()), ref).project else old(View())
    {
      hide ObjectViews, Apart, Sound;
      StepKeeps(View(), CallAddReference(ref));
      if !(ref.start.line > 0) && ref.start.filename == "" { return false; }
      if !(ref.to.line > 0) { return false; }
      referencesLog := referencesLog + [ref];
      ok := true;
    }
 
    /** Resolves the log into references; when a target is missing, what was added so far and the log are kept. */
    method ResolveReferences() returns (outcome: Outcome)
      requires Valid()
      modifies this`referencesLog, objects
      ensures Valid() && objects == old(objects)
      ensures View() == Store.ResolveReferences(old(View()))
      ensures outcome == ResolveOutcome(old(View()))
    {
      hide ObjectViews, Apart, Sound, ResolveOne;
      StepKeeps(View(), CallResolveReferences);
      ghost var before := View();
      var seen: set<RefKey> := {};
      for m := 0 to |referencesLog|
        invariant Linked() && objects == old(objects) && referencesLog == before.references
        invariant seen == ResolveLog(before, m).seen
        invariant View() == before.(objects := ResolveLog(before, m).objects)
        invariant FirstFailure(before, 0) >= m
      {
        var ref := referencesLog[m];
        if Target(ref) !in symbols.byFileAndName && !IsCReference(ref) {
          return if ref.fromFile in fileByID then MissingTarget else NilFile;
        }
        seen := ResolveEntry(ref, seen, before, m);
      }
      referencesLog := [];
      outcome := Resolved;
    }

    /** One log entry that does not end the resolution. */
    method ResolveEntry(
        ref: Reference, seen: set<RefKey>, ghost before: Project, ghost m: nat) returns (seen': set<RefKey>)
      requires Linked() && m < |before.references| && ref == before.references[m] && !IsStrictFailure(before, ref)
      requires seen == ResolveLog(before, m).seen && View() == before.(objects := ResolveLog(before, m).objects)
      modifies objects
      ensures Linked()
      ensures seen' == ResolveLog(before, m + 1).seen && View() == before.(objects := ResolveLog(before, m + 1).objects)
    {
      hide ObjectViews, Apart, WithRef, RefFullSpan;
      seen' := seen;
      if Target(ref) !in symbols.byFileAndName { return; }
      if ref.fromFile !in fileByID { return; }
      if ref.start.offset > MAX_INT32 || ref.start.offset < 0 { return; }
      if ref.end.offset > MAX_INT32 || ref.end.offset < 0 { return; }
      var to := symbols.byFileAndName[Target(ref)];
      var key := RefKey(to, ref.fromFile, ref.start.offset, ref.end.offset);
      if key in seen { return; }
      seen' := seen + {key};
      InPlace(objects, ref.fromFile - 1);
      AppendRef(objects, fileByID[ref.fromFile], RefInfo(to, ref.start.offset, ref.end.offset, RefFullSpan(ref)));
    }

    // ----------------------------------------------------------------
    // Module symbols

    /** A MODULE symbol for each module that has none yet, ranging over the modules in some order. */
    method CreateModuleSymbols() returns (ghost order: seq<int>)
      requires Valid()
      modifies this`symbols, this`nextSymbolID, this`modules, this`moduleImportsLog, objects
      ensures Valid()
      ensures forall part {:trigger part in Parts(objects)} | part in Parts(objects) ::
                part in old(Parts(objects)) || fresh(part)
      ensures objects == old(objects)
      ensures Enumerates(order, old(modules).byID.Keys)
      ensures View() == Store.CreateModuleSymbols(old(View()), order)
    {
      hide Parts, ObjectViews, Apart, Store.CreateModuleSymbol, ResolveImports, Sound;
      ghost var initial := View();
      ghost var before := View();
      order := [];
      var left := modules.byID.Keys;
      while left != {}
        invariant forall part {:trigger part in Parts(objects)} | part in Parts(objects) ::
                    part in old(Parts(objects)) || fresh(part)
        invariant Linked() && objects == old(objects) && moduleImportsLog == before.imports
        invariant left <= before.modules.byID.Keys && Enumerates(order, before.modules.byID.Keys - left)
        invariant View() == CreateEachModule(before, order)
      {
        ghost var some := ElementOf(left);
        var m :| m in left;
        left := left - {m};
        ghost var longer := order + [m];
        assert longer[..|longer| - 1] == order;
        assert forall x :: x in longer <==> x in order || x == m;
        CreateModuleSymbol(m);
        order := longer;
      }
      ResolveModuleImports();
      StepKeeps(initial, CallCreateModules(order));
    }

    method CreateModuleSymbol(m: int)
      requires Linked() && m in modules.byID
      modifies this`symbols, this`nextSymbolID, this`modules, objects
      ensures Linked()
      ensures forall part {:trigger part in Parts(objects)} | part in Parts(objects) ::
                part in old(Parts(objects)) || fresh(part)
      ensures View() == Store.CreateModuleSymbol(old(View()), m)
    {
      hide Parts, ObjectViews, Apart, WithModuleInstances;
      var info := modules.byID[m];
      if info.symbolID != 0 {
        return;
      }
      var symbolID := NewSymbol(info.name, NoScope, Module);
      modules := modules.(byID := modules.byID[m := info.(symbolID := symbolID)]);
      AddModuleInstances(symbolID, info.fileIDs);
    }

    /** An instance of a module's symbol on each of its files. */
    method AddModuleInstances(symbolID: int, fileIDs: seq<int>)
      requires Linked()
      modifies objects
      ensures Linked()
      ensures forall part {:trigger part in Parts(objects)} | part in Parts(objects) ::
                part in old(Parts(objects)) || fresh(part)
      ensures View() == old(View()).(objects :=
                WithModuleInstances(old(ObjectViews(objects)), files.pathByID.Keys, symbolID, fileIDs))
    {
      hide Parts, Apart;
      ghost var views := ObjectViews(objects);
      for i := 0 to |fileIDs|
        invariant forall part {:trigger part in Parts(objects)} | part in Parts(objects) ::
                    part in old(Parts(objects)) || fresh(part)
        invariant Linked()
        invariant ObjectViews(objects) == WithModuleInstances(views, files.pathByID.Keys, symbolID, fileIDs[..i])
      {
        var fileID := fileIDs[i];
        assert fileIDs[..i + 1][..i] == fileIDs[..i];
        if fileID in fileByID {
          var file := fileByID[fileID];
          InPlace(objects, fileID - 1);
          AppendInstance(objects, file, WholeInstance(symbolID, InstanceType.Containment, |file.content|));
        }
      }
      assert fileIDs[..|fileIDs|] == fileIDs;
    }

    method ResolveModuleImports()
      requires Linked()
      modifies this`moduleImportsLog, objects
      ensures Linked()
      ensures forall part {:trigger part in Parts(objects)} | part in Parts(objects) ::
                part in old(Parts(objects)) || fresh(part)
      ensures View() == old(View()).(objects := ResolveImports(old(View()), |old(moduleImportsLog)|).objects,
                                     imports := [])
    {
      hide Parts, ObjectViews, Apart;
      ghost var before := View();
      var seen: set<RefKey> := {};
      for m := 0 to |moduleImportsLog|
        invariant forall part {:trigger part in Parts(objects)} | part in Parts(objects) ::
                    part in old(Parts(objects)) || fresh(part)
        invariant Linked() && moduleImportsLog == before.imports
        invariant seen == ResolveImports(before, m).seen
        invariant View() == before.(objects := ResolveImports(before, m).objects)
      {
        seen := ResolveOneImport(moduleImportsLog[m], seen, before, m);
      }
      moduleImportsLog := [];
    }

    method ResolveOneImport(
        imp: ModuleImport, seen: set<RefKey>, ghost before: Project, ghost m: nat) returns (seen': set<RefKey>)
      requires Linked() && m < |before.imports| && imp == before.imports[m]
      requires seen == ResolveImports(before, m).seen && View() == before.(objects := ResolveImports(before, m).objects)
      modifies objects
      ensures Linked()
      ensures forall part {:trigger part in Parts(objects)} | part in Parts(objects) ::
                part in old(Parts(objects)) || fresh(part)
      ensures seen' == ResolveImports(before, m + 1).seen
              && View() == before.(objects := ResolveImports(before, m + 1).objects)
    {
      hide Parts, ObjectViews, Apart, WithRef, ToInt32;
      seen' := seen;
      if imp.toModuleName !in modules.byName { return; }
      var to := modules.byName[imp.toModuleName];
      if to !in modules.byID || modules.byID[to].symbolID == 0 { return; }
      if imp.fromFileID !in fileByID { return; }
      var target := modules.byID[to].symbolID;
      var key := RefKey(target, imp.fromFileID, ToInt32(imp.start), ToInt32(imp.end));
      if key in seen { return; }
      seen' := seen + {key};
      InPlace(objects, imp.fromFileID - 1);
      AppendRef(objects, fileByID[imp.fromFileID], RefInfo(target, ToInt32(imp.start), ToInt32(imp.end), None));
    }

    // ----------------------------------------------------------------
    // Directory symbols

    /** One symbol and one sentinel. */
    method CreateDirectory(dirPath: string) returns (symbolID: int, sentinel: Object)
      requires Linked()
      modifies this`symbols, this`nextSymbolID, this`objects, this`nextFileID
      ensures Linked()
      ensures forall part {:trigger part in Parts(objects)} | part in Parts(objects) ::
                part in old(Parts(objects)) || fresh(part)
      ensures fresh(sentinel) && objects == old(objects) + [sentinel] && symbolID == |old(symbols).list| + 1
      ensures symbols == old(symbols).(list := old(symbols).list + [Symbol(symbolID, dirPath, NoScope, Directory)])
      ensures View() == old(View()).(symbols := symbols, objects := old(View()).objects
                + [ObjectRec(dirPath, [], [WholeInstance(symbolID, InstanceType.Sentinel, 0)], [])])
    {
      hide Parts, ObjectViews, Apart;
      symbolID := NewSymbol(dirPath, NoScope, Directory);
      sentinel := NewObject(dirPath, [], WholeInstance(symbolID, InstanceType.Sentinel, 0));
    }

    /** A symbol and a sentinel for each directory, in the order in which the set is ranged over. */
    method CreateDirectories(dirSet: set<string>)
      returns (dirSymbolID: map<string, int>, dirSentinel: map<string, Object>, ghost dirs: seq<string>)
      requires Linked()
      modifies this`symbols, this`nextSymbolID, this`objects, this`nextFileID
      ensures Linked()
      ensures forall part {:trigger part in Parts(objects)} | part in Parts(objects) ::
                part in old(Parts(objects)) || fresh(part)
      ensures old(objects) <= objects && forall i | |old(objects)| <= i < |objects| :: fresh(objects[i])
      ensures Enumerates(dirs, dirSet)
      ensures IsDirTable(dirSymbolID, dirSentinel, dirs, |old(symbols).list| + 1, objects[|old(objects)|..])
      ensures View() == old(View()).(
                symbols := old(symbols).(list := old(symbols).list + DirSymbols(|old(symbols).list| + 1, dirs)),
                objects := old(View()).objects + Sentinels(|old(symbols).list| + 1, dirs))
    {
      hide Parts, ObjectViews, Apart, IsDirTable, DirSymbols, Sentinels;
      ghost var before := View();
      ghost var first := |symbols.list| + 1;
      dirSymbolID, dirSentinel, dirs := map[], map[], [];
      NoDirectoryYet(first);
      assert objects[|objects|..] == [];
      var left := dirSet;
      while left != {}
        invariant forall part {:trigger part in Parts(objects)} | part in Parts(objects) ::
                    part in old(Parts(objects)) || fresh(part)
        invariant Linked() && left <= dirSet && Enumerates(dirs, dirSet - left)
        invariant old(objects) <= objects && forall i | |old(objects)| <= i < |objects| :: fresh(objects[i])
        invariant symbols == before.symbols.(list := before.symbols.list + DirSymbols(first, dirs))
        invariant View() == before.(symbols := symbols, objects := before.objects + Sentinels(first, dirs))
        invariant IsDirTable(dirSymbolID, dirSentinel, dirs, first, objects[|old(objects)|..])
      {
        var dirPath :| dirPath in left;
        left := left - {dirPath};
        ghost var created := objects[|old(objects)|..];
        var symbolID, sentinel := CreateDirectory(dirPath);
        OneMoreDirectory(dirSymbolID, dirSentinel, dirs, first, created, dirPath, sentinel);
        assert objects[|old(objects)|..] == created + [sentinel];
        dirSymbolID := dirSymbolID[dirPath := symbolID];
        dirSentinel := dirSentinel[dirPath := sentinel];
        dirs := dirs + [dirPath];
      }
    }

    method AddDirectoryInstance(
        fileID: int, dirSymbolID: map<string, int>, ghost dirSentinel: map<string, Object>, ghost dirs: seq<string>,
        ghost first: int, ghost sentinels: seq<Object>)
      requires Linked() && IsDirTable(dirSymbolID, dirSentinel, dirs, first, sentinels) && fileID in files.pathByID
      modifies objects
      ensures Linked()
      ensures forall part {:trigger part in Parts(objects)} | part in Parts(objects) ::
                part in old(Parts(objects)) || fresh(part)
      ensures ObjectViews(objects)
              == WithDirInstance(old(ObjectViews(objects)), DirOfFiles(files.pathByID), dirs, first, fileID)
    {
      hide Parts, Apart, WithInstance, ParentDir;
      var file := fileByID[fileID];
      var parent := ParentDir(files.pathByID[fileID]);
      if parent in dirSymbolID {
        InPlace(objects, fileID - 1);
        AppendInstance(objects, file, WholeInstance(dirSymbolID[parent], InstanceType.Containment, |file.content|));
      }
    }

    /** An instance of its directory on each file, in the order in which the files are ranged over. */
    method AddDirectoryInstances(
        dirSymbolID: map<string, int>, ghost dirSentinel: map<string, Object>, ghost dirs: seq<string>,
        ghost first: int,
        ghost sentinels: seq<Object>)
      returns (ghost order: seq<int>)
      requires Linked() && IsDirTable(dirSymbolID, dirSentinel, dirs, first, sentinels)
      modifies objects
      ensures Linked()
      ensures forall part {:trigger part in Parts(objects)} | part in Parts(objects) ::
                part in old(Parts(objects)) || fresh(part)
      ensures Enumerates(order, files.pathByID.Keys)
      ensures View() == old(View()).(objects :=
                WithDirInstances(old(ObjectViews(objects)), DirOfFiles(files.pathByID), dirs, first, order))
    {
      hide Parts, ObjectViews, Apart, WithDirInstance, IsDirTable;
      ghost var views := ObjectViews(objects);
      ghost var dirOf := DirOfFiles(files.pathByID);
      order := [];
      var left := files.pathByID.Keys;
      while left != {}
        invariant forall part {:trigger part in Parts(objects)} | part in Parts(objects) ::
                    part in old(Parts(objects)) || fresh(part)
        invariant Linked() && left <= files.pathByID.Keys && Enumerates(order, files.pathByID.Keys - left)
        invariant ObjectViews(objects) == WithDirInstances(views, dirOf, dirs, first, order)
      {
        ghost var some := ElementOf(left);
        var fileID :| fileID in left;
        left := left - {fileID};
        ghost var longer := order + [fileID];
        assert longer[..|longer| - 1] == order;
        assert forall x :: x in longer <==> x in order || x == fileID;
        AddDirectoryInstance(fileID, dirSymbolID, dirSentinel, dirs, first, sentinels);
        order := longer;
      }
    }

    method AddDirectoryRef(
        ghost up: string -> string, childDir: string, parent: string, dirSymbolID: map<string, int>,
        dirSentinel: map<string, Object>, ghost dirs: seq<string>, ghost first: int, ghost firstObject: nat)
      requires parent == up(childDir)
      requires Linked() && 0 < firstObject <= |objects| + 1
      requires IsDirTable(dirSymbolID, dirSentinel, dirs, first, objects[firstObject - 1..])
      modifies objects
      ensures Linked()
      ensures forall part {:trigger part in Parts(objects)} | part in Parts(objects) ::
                part in old(Parts(objects)) || fresh(part)
      ensures ObjectViews(objects) == WithDirRef(up, old(ObjectViews(objects)), dirs, first, firstObject, childDir)
    {
      hide Parts, ObjectViews, Apart, WithRef;
      if parent != childDir && childDir in dirSymbolID && parent in dirSentinel {
        InPlace(objects, firstObject - 1 + DirIndex(dirs, parent));
        AppendRef(objects, dirSentinel[parent], RefInfo(dirSymbolID[childDir], 0, 0, None));
      }
    }

    /** A reference to each directory on the sentinel of the one above. */
    method AddDirectoryRefs(
        dirSet: set<string>, dirSymbolID: map<string, int>, dirSentinel: map<string, Object>,
        ghost dirs: seq<string>, ghost first: int, ghost firstObject: nat)
      returns (ghost order: seq<string>)
      requires Linked() && 0 < firstObject <= |objects| + 1
      requires IsDirTable(dirSymbolID, dirSentinel, dirs, first, objects[firstObject - 1..])
      modifies objects
      ensures Linked()
      ensures forall part {:trigger part in Parts(objects)} | part in Parts(objects) ::
                part in old(Parts(objects)) || fresh(part)
      ensures Enumerates(order, dirSet)
      ensures View() == old(View()).(objects :=
                WithDirRefs(ParentDir, old(ObjectViews(objects)), dirs, first, firstObject, order))
    {
      hide Parts, ObjectViews, Apart, WithDirRef, IsDirTable, ParentDir;
      ghost var views := ObjectViews(objects);
      order := [];
      var left := dirSet;
      while left != {}
        invariant forall part {:trigger part in Parts(objects)} | part in Parts(objects) ::
                    part in old(Parts(objects)) || fresh(part)
        invariant Linked() && left <= dirSet && Enumerates(order, dirSet - left)
        invariant ObjectViews(objects) == WithDirRefs(ParentDir, views, dirs, first, firstObject, order)
      {
        var childDir :| childDir in left;
        left := left - {childDir};
        ghost var longer := order + [childDir];
        assert longer[..|longer| - 1] == order;
        AddDirectoryRef(ParentDir, childDir, ParentDir(childDir), dirSymbolID, dirSentinel, dirs, first, firstObject);
        order := longer;
      }
    }

    /** The three loops over the collected directories. */
    method LinkDirectories(dirSet: set<string>)
      returns (ghost dirs: seq<string>, ghost order: seq<int>, ghost children: seq<string>)
      requires Linked()
      modifies this`symbols, this`nextSymbolID, this`objects, this`nextFileID, objects
      ensures Linked()
      ensures forall part {:trigger part in Parts(objects)} | part in Parts(objects) ::
                part in old(Parts(objects)) || fresh(part)
      ensures old(objects) <= objects && forall i | |old(objects)| <= i < |objects| :: fresh(objects[i])
      ensures Enumerates(dirs, dirSet) && Enumerates(order, files.pathByID.Keys) && Enumerates(children, dirSet)
      ensures var first := |old(symbols).list| + 1;
              View() == old(View()).(
                symbols := old(symbols).(list := old(symbols).list + DirSymbols(first, dirs)),
                objects := WithDirectories(ParentDir, old(ObjectViews(objects)), DirOfFiles(files.pathByID), first,
                                           dirs,
                                           order, children))
    {
      hide Parts, ObjectViews, Apart, IsDirTable, DirSymbols, WithDirInstances, WithDirRefs, Sentinels;
      ghost var first := |symbols.list| + 1;
      ghost var count := |objects|;
      var dirSymbolID, dirSentinel;
      dirSymbolID, dirSentinel, dirs := CreateDirectories(dirSet);
      order := AddDirectoryInstances(dirSymbolID, dirSentinel, dirs, first, objects[count..]);
      children := AddDirectoryRefs(dirSet, dirSymbolID, dirSentinel, dirs, first, count + 1);
    }

    /** Once, and only once there is a file: symbols, sentinels, instances and references of all directories. */
    method CreateDirectorySymbols()
      returns (ghost dirs: seq<string>, ghost order: seq<int>, ghost children: seq<string>)
      requires Valid()
      modifies this`symbols, this`nextSymbolID, this`objects, this`nextFileID, this`directorySymbolsCreated, objects
      ensures Valid()
      ensures forall part {:trigger part in Parts(objects)} | part in Parts(objects) ::
                part in old(Parts(objects)) || fresh(part)
      ensures old(objects) <= objects && forall i | |old(objects)| <= i < |objects| :: fresh(objects[i])
      ensures Ranges(old(View()), dirs, order, children)
      ensures View() == Store.CreateDirectorySymbols(old(View()), dirs, order, children)
    {
      hide Parts, ObjectViews, Apart, DirSymbols, WithDirectories, DirsOf, Sound;
      ghost var initial := View();
      dirs := SomeOrder(DirsOf(files.pathByID.Values));
      order := SomeOrder(files.pathByID.Keys);
      children := dirs;
      if directorySymbolsCreated {
        return;
      }
      var dirSet := CollectDirs(files.pathByID);
      if |dirs| > 0 {
        EnumeratesSome(dirs, dirSet);
      }
      if |dirSet| == 0 {
        return;
      }
      directorySymbolsCreated := true;
      dirs, order, children := LinkDirectories(dirSet);
      assert |dirs| > 0 by {
        var d :| d in dirSet;
        assert d in dirs;
      }
      CreateDirectoriesKeep(initial, dirs, order, children);
    }

    // ----------------------------------------------------------------
    // Numbering

    method NumberObjectAt(i: nat, rankBySymbol: map<int, nat>)
      requires Linked() && i < |objects| && rankBySymbol == RankBySymbol(symbols.list)
      modifies objects[i].symbolInstances, objects[i].refs
      ensures IsNumberedObject(objects[i], symbols.list, instances)
    {
      hide ObjectViews, IsNumbered, Extents, Infos, RankBySymbol, StatedOf;
      var obj := objects[i];
      InPlace(objects, i);
      var stated := CollectStated(instances, obj.localId, |obj.symbolInstances|);
      NumberObjectTree(obj, rankBySymbol, stated);
    }

    /** Numbers every object, reading nothing but the project. */
    method NumberObjectTrees()
      requires Linked()
      modifies Parts(objects)
      ensures Linked() && View() == old(View())
      ensures forall i | 0 <= i < |objects| :: IsNumberedObject(objects[i], symbols.list, instances)
    {
      hide ObjectViews, Parts, RankBySymbol, IsNumberedObject;
      var rankBySymbol := RankSymbols(symbols.list);
      for i := 0 to |objects|
        invariant Linked() && View() == old(View()) && Parts(objects) == old(Parts(objects))
        invariant forall j {:trigger IsNumberedObject(objects[j], symbols.list, instances)} | 0 <= j < i ::
                    IsNumberedObject(objects[j], symbols.list, instances)
      {
        PartsOfObject(objects, i);
        label Before:
        NumberObjectAt(i, rankBySymbol);
        forall j | 0 <= j < i ensures IsNumberedObject(objects[j], symbols.list, instances) {
          assert old@Before(IsNumberedObject(objects[j], symbols.list, instances));
          assert ShareNothing(objects[j], objects[i]);
          ghost var insts, refs := objects[j].symbolInstances, objects[j].refs;
          forall k | 0 <= k < |insts| ensures unchanged@Before(insts[k]) {
            assert insts[k] in objects[j].symbolInstances && insts[k] !in objects[i].symbolInstances;
          }
          forall k | 0 <= k < |refs| ensures unchanged@Before(refs[k]) {
            assert refs[k] in objects[j].refs && refs[k] !in objects[i].refs;
          }
        }
      }
    }

    /** The fields on the object are the numbers that the project determines for it. */
    ghost predicate HasItsNumbers(o: Object)
      reads this, objects, o, o.symbolInstances, o.refs
    {
      && 0 < o.localId <= |objects|
      && (|o.symbolInstances| > 0 ==>
            AreObjectNumbers(View(), o.localId - 1, Places(o.symbolInstances), Points(o.refs)))
    }

    lemma NumbersInView(i: nat)
      requires Linked() && i < |objects| && IsNumberedObject(objects[i], symbols.list, instances)
      ensures HasItsNumbers(objects[i])
    {
      hide RankBySymbol, AreNumbers;
      var o := objects[i];
      InPlace(objects, i);
      assert View().objects[i] == ObjectView(o);
      assert FoldedFlags(o.symbolInstances) == FlagsOf(Infos(o.symbolInstances));
      assert RangesOf(o.refs) == TokensOf(RefInfos(o.refs));
    }

    /** Finalises the project and numbers it; what Marshal and Upload send out. */
    method Marshal() returns (ghost call: Op)
      requires Valid()
      modifies this, objects, Parts(objects)
      ensures Valid() && call.CallMarshal? && Possible(old(View()), call) && View() == Apply(old(View()), call)
      ensures forall i {:trigger objects[i]} | 0 <= i < |objects| :: HasItsNumbers(objects[i])
    {
      hide ObjectViews, Parts, IsNumberedObject, HasItsNumbers, Sound;
      ghost var initial := View();
      ghost var modules := CreateModuleSymbols();
      ghost var dirs, order, children := CreateDirectorySymbols();
      NumberObjectTrees();
      call := CallMarshal(modules, dirs, order, children);
      forall i | 0 <= i < |objects| ensures HasItsNumbers(objects[i]) {
        NumbersInView(i);
      }
      StepKeeps(initial, call);
    }
  }
}
