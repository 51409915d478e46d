/**
 The project under construction as a value, and what each producer call makes of it.

 Objects and symbols are numbered from 1 in the order they are appended, so number i is
 found at position i - 1. Where a length or an offset is narrowed to 32 bits unchecked,
 the wrap-around is written out.
 */
module Store {
  import opened Containment
  import opened Entities
  import opened Paths

  const MAX_INT32: int := 0x7FFF_FFFF

  /** The narrowing to a signed 32-bit integer. */
  function ToInt32(x: int): (r: int)
    ensures -0x8000_0000 <= r <= MAX_INT32 && (x - r) % 0x1_0000_0000 == 0
    ensures 0 <= x <= MAX_INT32 ==> r == x
  {
    (x + 0x8000_0000) % 0x1_0000_0000 - 0x8000_0000
  }

  datatype Scope = NoScope | Local | Global

  datatype Symbol = Symbol(localId: int, name: string, scope: Scope, kind: SymbolKind)

  /** `symbolID` is 0 until the module's symbol has been created. */
  datatype ModuleInfo = ModuleInfo(name: string, symbolID: int, fileIDs: seq<int>)

  datatype ObjectRec = ObjectRec(path: string, content: seq<int>, insts: seq<InstanceInfo>, refs: seq<RefInfo>)

  datatype SymbolKey = SymbolKey(name: string, scope: Scope)

  datatype FileName = FileName(path: string, name: string)

  datatype InstanceKey = InstanceKey(symbolID: int, fileID: int, start: int, end: int)

  datatype LookupKey = LookupKey(name: string, scope: Scope, kind: SymbolKind)

  datatype Entry = Entry(symbolID: int, fileID: int, kind: SymbolKind, start: int, end: int, instanceID: int)

  /** An instance by its position in its object. */
  datatype Slot = Slot(file: int, idx: int)

  datatype ModuleImport =
    ModuleImport(fromModuleID: int, toModuleName: string, fromFileID: int, start: int, end: int)

  /** A source position; one with no line is not valid. */
  datatype Position = Position(filename: string, line: int, offset: int)

  datatype Reference =
    Reference(fromFile: int, to: Position, toName: string, start: Position, end: Position, full: Option<Span>)

  datatype SymbolTable = SymbolTable(list: seq<Symbol>, byKey: map<SymbolKey, int>, byFileAndName: map<FileName, int>)

  datatype ModuleTable =
    ModuleTable(nextID: int, byName: map<string, int>, byID: map<int, ModuleInfo>, ofFile: map<int, int>)

  datatype FileTable = FileTable(pathByID: map<int, string>, idByPath: map<string, int>)

  /** The instances that declarations added, and the caches over them. */
  datatype InstanceTable = InstanceTable(
    nextID: int, idByKey: map<InstanceKey, int>, byFile: map<int, seq<Entry>>, byLookup: map<LookupKey, seq<int>>,
    slots: map<int, Slot>, stated: map<Slot, int>)

  datatype Project = Project(
    symbols: SymbolTable, objects: seq<ObjectRec>, modules: ModuleTable, files: FileTable, instances: InstanceTable,
    references: seq<Reference>, imports: seq<ModuleImport>, directoriesCreated: bool)

  /** A fresh index. */
  const EMPTY: Project :=
    Project(SymbolTable([], map[], map[]), [], ModuleTable(1, map[], map[], map[]), FileTable(map[], map[]),
            InstanceTable(1, map[], map[], map[], map[], map[]), [], [], false)

  // ------------------------------------------------------------------
  // Modules and files

  datatype Added = Failed | Added(project: Project, id: int)

  function AddModule(p: Project, name: string): (r: (Project, int)) {
    if name in p.modules.byName then (p, p.modules.byName[name])
    else
      var id := p.modules.nextID;
      (p.(modules := p.modules.(
            nextID := id + 1,
            byName := p.modules.byName[name := id],
            byID := p.modules.byID[id := ModuleInfo(name, 0, [])])),
       id)
  }

  /** An instance over a whole object of `length` bytes. */
  function WholeInstance(symbolID: int, instanceType: InstanceType, length: int): InstanceInfo {
    InstanceInfo(symbolID, instanceType, 0, ToInt32(length), false, None, None, None)
  }

  /** A new file with its FILE symbol and the instance that covers it. */
  function NewFile(p: Project, path: string, content: seq<int>, instanceType: InstanceType): Project {
    var id := |p.objects| + 1;
    var symbolID := |p.symbols.list| + 1;
    p.(symbols := p.symbols.(list := p.symbols.list + [Symbol(symbolID, path, NoScope, File)]),
       objects := p.objects + [ObjectRec(path, content, [WholeInstance(symbolID, instanceType, |content|)], [])],
       files := FileTable(p.files.pathByID[id := path], p.files.idByPath[path := id]))
  }

  function InModule(t: ModuleTable, m: int, id: int): ModuleTable
    requires m in t.byID
  {
    t.(ofFile := t.ofFile[id := m], byID := t.byID[m := t.byID[m].(fileIDs := t.byID[m].fileIDs + [id])])
  }

  function AddFile(
      p: Project, moduleId: Option<int>, path: string, content: seq<int>, instanceType: InstanceType): Added {
    if moduleId.Some? && moduleId.value !in p.modules.byID then Failed
    else if path in p.files.idByPath then
      var id := p.files.idByPath[path];
      if 0 < id <= |p.objects| && p.objects[id - 1].content == content then Added(p, id) else Failed
    else
      var id := |p.objects| + 1;
      var q := NewFile(p, path, content, instanceType);
      Added(if moduleId.None? then q else q.(modules := InModule(q.modules, moduleId.value, id)), id)
  }

  // ------------------------------------------------------------------
  // Symbols

  datatype Spans = Spans(name: Option<Span>, signature: Option<Span>, content: Option<Span>)

  const NO_PARENT: int := 0

  datatype SymbolCall = SymbolCall(
    moduleId: int, fileId: int, name: string, scope: Scope, kind: SymbolKind, instanceType: InstanceType,
    start: int, end: int, spans: Spans, parent: int)

  datatype AddedSymbol = Rejected | AddedSymbol(project: Project, symbolID: int, instanceID: int)

  predicate OffsetsFitInt32(start: int, end: int) {
    start >= 0 && end >= 0 && start <= MAX_INT32 && end <= MAX_INT32
  }

  /** A finer span that is kept only when it sits inside its instance's extent. */
  function ProtoSpan(span: Option<Span>, start: int, end: int): Option<Span> {
    if span.None? then None
    else if !OffsetsFitInt32(span.value.start, span.value.end) then None
    else if span.value.start > span.value.end then None
    else if span.value.start < start || span.value.end > end then None
    else span
  }

  /** An extent cut off at the end of its object. */
  function ClampedExtent(start: int, end: int, limit: int): (int, int) {
    if end > limit then (if start > limit then limit else start, limit) else (start, end)
  }

  /** The symbol of that name and scope, created when there is none. */
  function WithSymbol(t: SymbolTable, name: string, scope: Scope, kind: SymbolKind): (r: (SymbolTable, int)) {
    var key := SymbolKey(name, scope);
    if key in t.byKey then (t, t.byKey[key])
    else
      var id := |t.list| + 1;
      (t.(list := t.list + [Symbol(id, name, scope, kind)], byKey := t.byKey[key := id]), id)
  }

  /** The name under which references to `path` find the symbol. */
  function WithFileName(t: SymbolTable, path: string, name: string, symbolID: int): SymbolTable {
    if path == "" then t else t.(byFileAndName := t.byFileAndName[FileName(path, name) := symbolID])
  }

  function WithInstance(objects: seq<ObjectRec>, id: int, info: InstanceInfo): (r: seq<ObjectRec>)
    ensures |r| == |objects|
  {
    if 0 < id <= |objects| then objects[id - 1 := objects[id - 1].(insts := objects[id - 1].insts + [info])]
    else objects
  }

  function WithRef(objects: seq<ObjectRec>, id: int, ref: RefInfo): (r: seq<ObjectRec>)
    ensures |r| == |objects|
  {
    if 0 < id <= |objects| then objects[id - 1 := objects[id - 1].(refs := objects[id - 1].refs + [ref])]
    else objects
  }

  /** The list a map holds for a key, empty when it holds none. */
  function Listed<K, V>(m: map<K, seq<V>>, key: K): seq<V> {
    if key in m then m[key] else []
  }

  /** Whether a stated parent is an earlier instance of the same object. */
  predicate AcceptsParent(t: InstanceTable, slot: Slot, parent: int) {
    parent in t.slots && t.slots[parent].file == slot.file && t.slots[parent].idx < slot.idx
  }

  /** The instance a call declares, with the spans that fit. */
  function DeclaredInfo(c: SymbolCall, symbolID: int, start: int, end: int): InstanceInfo {
    InstanceInfo(symbolID, c.instanceType, start, end, false,
                 ProtoSpan(c.spans.name, start, end), ProtoSpan(c.spans.signature, start, end),
                 ProtoSpan(c.spans.content, start, end))
  }

  /** All that is recorded about a new instance in position `idx` of its object. */
  function WithDeclared(t: InstanceTable, c: SymbolCall, symbolID: int, start: int, end: int, idx: nat): InstanceTable {
    var id := t.nextID;
    var slot := Slot(c.fileId, idx);
    var lookup := LookupKey(c.name, c.scope, c.kind);
    InstanceTable(
      id + 1,
      t.idByKey[InstanceKey(symbolID, c.fileId, start, end) := id],
      t.byFile[c.fileId := Listed(t.byFile, c.fileId) + [Entry(symbolID, c.fileId, c.kind, start, end, id)]],
      t.byLookup[lookup := Listed(t.byLookup, lookup) + [id]],
      t.slots[id := slot],
      if c.parent != NO_PARENT && AcceptsParent(t, slot, c.parent)
      then t.stated[slot := t.slots[c.parent].idx] else t.stated)
  }

  /** The checks AddSymbol makes before it touches anything. */
  predicate Accepts(p: Project, c: SymbolCall) {
    && c.moduleId in p.modules.byID
    && c.fileId in p.files.pathByID && 0 < c.fileId <= |p.objects|
    && c.kind != Unspecified
    && 0 <= c.start <= MAX_INT32
    && 0 <= c.end <= MAX_INT32
  }

  /** The new instance in its object and in the tables. */
  function Declare(p: Project, c: SymbolCall, symbolID: int, start: int, end: int): Project
    requires 0 < c.fileId <= |p.objects|
  {
    p.(objects := WithInstance(p.objects, c.fileId, DeclaredInfo(c, symbolID, start, end)),
       instances := WithDeclared(p.instances, c, symbolID, start, end, |p.objects[c.fileId - 1].insts|))
  }

  /** The symbol table after a call, with the symbol the call is about. */
  function NamedSymbol(t: SymbolTable, path: string, c: SymbolCall): (r: (SymbolTable, int)) {
    var (known, symbolID) := WithSymbol(t, c.name, c.scope, c.kind);
    (WithFileName(known, path, c.name, symbolID), symbolID)
  }

  /** The same symbol, file and extent is the same instance; anything else is a new one. */
  function DeclareOnce(p: Project, c: SymbolCall, symbolID: int, start: int, end: int): (r: AddedSymbol)
    requires 0 < c.fileId <= |p.objects|
    ensures r.AddedSymbol?
  {
    var key := InstanceKey(symbolID, c.fileId, start, end);
    if key in p.instances.idByKey then AddedSymbol(p, symbolID, p.instances.idByKey[key])
    else AddedSymbol(Declare(p, c, symbolID, start, end), symbolID, p.instances.nextID)
  }

  function AddSymbol(p: Project, c: SymbolCall): (r: AddedSymbol)
    ensures r.AddedSymbol? <==> Accepts(p, c)
  {
    if !Accepts(p, c) then Rejected
    else
      var (named, symbolID) := NamedSymbol(p.symbols, p.files.pathByID[c.fileId], c);
      var (start, end) := ClampedExtent(c.start, c.end, |p.objects[c.fileId - 1].content|);
      DeclareOnce(p.(symbols := named), c, symbolID, start, end)
  }

  // ------------------------------------------------------------------
  // References

  /** What AddReference accepts: a target with a line, and a start that is not entirely empty. */
  predicate IsAcceptable(ref: Reference) {
    ref.to.line > 0 && (ref.start.line > 0 || ref.start.filename != "")
  }

  function AddReference(p: Project, ref: Reference): Added {
    if IsAcceptable(ref) then Added(p.(references := p.references + [ref]), 0) else Failed
  }

  /** A surrounding construct that is kept only when it encloses the token. */
  function RefFullSpan(ref: Reference): Option<Span> {
    if ref.full.None? then None
    else if !OffsetsFitInt32(ref.full.value.start, ref.full.value.end) then None
    else if ref.full.value.start > ref.start.offset || ref.full.value.end < ref.end.offset then None
    else ref.full
  }

  predicate IsCReference(ref: Reference) {
    "C." <= ref.toName
  }

  function Target(ref: Reference): FileName {
    FileName(ref.to.filename, ref.toName)
  }

  /** A target that is known, a file that is known, and offsets that fit. */
  predicate IsResolvable(p: Project, ref: Reference) {
    && Target(ref) in p.symbols.byFileAndName && ref.fromFile in p.files.pathByID
    && OffsetsFitInt32(ref.start.offset, ref.end.offset)
  }

  datatype RefKey = RefKey(toSymbolID: int, fromFile: int, start: int, end: int)

  function KeyOfRef(p: Project, ref: Reference): RefKey
    requires Target(ref) in p.symbols.byFileAndName
  {
    RefKey(p.symbols.byFileAndName[Target(ref)], ref.fromFile, ref.start.offset, ref.end.offset)
  }

  function ResolvedRef(p: Project, ref: Reference): RefInfo
    requires Target(ref) in p.symbols.byFileAndName
  {
    RefInfo(p.symbols.byFileAndName[Target(ref)], ref.start.offset, ref.end.offset, RefFullSpan(ref))
  }

  /** A target that is neither known nor cgo's ends the resolution with an error. */
  predicate IsStrictFailure(p: Project, ref: Reference) {
    Target(ref) !in p.symbols.byFileAndName && !IsCReference(ref)
  }

  datatype Resolution = Resolution(objects: seq<ObjectRec>, seen: set<RefKey>)

  /** One log entry: skipped, or a new reference, or one already there. */
  function ResolveOne(p: Project, ref: Reference, r: Resolution): Resolution {
    if !IsResolvable(p, ref) || KeyOfRef(p, ref) in r.seen then r
    else Resolution(WithRef(r.objects, ref.fromFile, ResolvedRef(p, ref)), r.seen + {KeyOfRef(p, ref)})
  }

  /** The first `m` log entries, in order. */
  function ResolveLog(p: Project, m: nat): Resolution
    requires m <= |p.references|
  {
    if m == 0 then Resolution(p.objects, {}) else ResolveOne(p, p.references[m - 1], ResolveLog(p, m - 1))
  }

  /** The first log entry from `m` on that ends the resolution, or the length of the log. */
  function FirstFailure(p: Project, m: nat): (k: nat)
    requires m <= |p.references|
    ensures m <= k <= |p.references|
    ensures forall i | m <= i < k :: !IsStrictFailure(p, p.references[i])
    ensures k < |p.references| ==> IsStrictFailure(p, p.references[k])
    decreases |p.references| - m
  {
    if m == |p.references| || IsStrictFailure(p, p.references[m]) then m else FirstFailure(p, m + 1)
  }

  /**
   How a resolution ends. Reporting a missing target names the referring file, which fails
   with a nil dereference when that file is unknown too.
   */
  datatype Outcome = Resolved | MissingTarget | NilFile

  function ResolveOutcome(p: Project): (r: Outcome)
    ensures r == Resolved <==> forall i | 0 <= i < |p.references| :: !IsStrictFailure(p, p.references[i])
  {
    var m := FirstFailure(p, 0);
    if m == |p.references| then Resolved
    else if p.references[m].fromFile in p.files.pathByID then MissingTarget else NilFile
  }

  /** A failing resolution leaves what it had already added, and the log. */
  function ResolveReferences(p: Project): Project {
    var m := FirstFailure(p, 0);
    if m == |p.references| then p.(objects := ResolveLog(p, m).objects, references := [])
    else p.(objects := ResolveLog(p, m).objects)
  }

  // ------------------------------------------------------------------
  // Module symbols

  /** One instance of the module's symbol on each of `files` that is a `known` file. */
  function WithModuleInstances(
      objects: seq<ObjectRec>, known: set<int>, symbolID: int, files: seq<int>): (r: seq<ObjectRec>)
    ensures |r| == |objects|
    decreases |files|
  {
    if |files| == 0 then objects
    else
      var before := WithModuleInstances(objects, known, symbolID, files[..|files| - 1]);
      var id := files[|files| - 1];
      if id in known && 0 < id <= |before| then
        WithInstance(before, id, WholeInstance(symbolID, InstanceType.Containment, |before[id - 1].content|))
      else before
  }

  function CreateModuleSymbol(p: Project, m: int): Project
    requires m in p.modules.byID
  {
    var info := p.modules.byID[m];
    if info.symbolID != 0 then p
    else
      var id := |p.symbols.list| + 1;
      p.(symbols := p.symbols.(list := p.symbols.list + [Symbol(id, info.name, NoScope, Module)]),
         modules := p.modules.(byID := p.modules.byID[m := info.(symbolID := id)]),
         objects := WithModuleInstances(p.objects, p.files.pathByID.Keys, id, info.fileIDs))
  }

  /** The loop over the modules, in the order `modules` the map happens to give. */
  function CreateEachModule(p: Project, modules: seq<int>): (q: Project)
    requires forall m | m in modules :: m in p.modules.byID
    ensures q.modules.byID.Keys == p.modules.byID.Keys
    decreases |modules|
  {
    if |modules| == 0 then p
    else
      var before := CreateEachModule(p, modules[..|modules| - 1]);
      CreateModuleSymbol(before, modules[|modules| - 1])
  }

  /** The module an import names, once its symbol exists. */
  function ImportTarget(p: Project, imp: ModuleImport): int {
    if imp.toModuleName !in p.modules.byName then 0
    else
      var m := p.modules.byName[imp.toModuleName];
      if m in p.modules.byID then p.modules.byID[m].symbolID else 0
  }

  function ResolveImport(p: Project, imp: ModuleImport, r: Resolution): Resolution {
    var target := ImportTarget(p, imp);
    var start, end := ToInt32(imp.start), ToInt32(imp.end);
    var key := RefKey(target, imp.fromFileID, start, end);
    if target == 0 || imp.fromFileID !in p.files.pathByID || key in r.seen then r
    else Resolution(WithRef(r.objects, imp.fromFileID, RefInfo(target, start, end, None)), r.seen + {key})
  }

  function ResolveImports(p: Project, m: nat): Resolution
    requires m <= |p.imports|
  {
    if m == 0 then Resolution(p.objects, {}) else ResolveImport(p, p.imports[m - 1], ResolveImports(p, m - 1))
  }

  function CreateModuleSymbols(p: Project, modules: seq<int>): Project
    requires forall m | m in modules :: m in p.modules.byID
  {
    var q := CreateEachModule(p, modules);
    q.(objects := ResolveImports(q, |q.imports|).objects, imports := [])
  }

  // ------------------------------------------------------------------
  // Directory symbols

  /** The symbol that directory number `i` gets. */
  function DirSymbols(first: int, dirs: seq<string>): (r: seq<Symbol>)
    ensures |r| == |dirs|
  {
    seq(|dirs|, i requires 0 <= i < |dirs| => Symbol(first + i, dirs[i], NoScope, Directory))
  }

  /** The empty objects that stand for directories. */
  function Sentinels(first: int, dirs: seq<string>): (r: seq<ObjectRec>)
    ensures |r| == |dirs|
  {
    seq(|dirs|, i requires 0 <= i < |dirs| =>
      ObjectRec(dirs[i], [], [WholeInstance(first + i, InstanceType.Sentinel, 0)], []))
  }

  /** Each directory with its place among the created ones. */
  function DirIndex(dirs: seq<string>, dir: string): (i: int)
    ensures -1 <= i < |dirs|
    ensures i >= 0 ==> dirs[i] == dir
    ensures dir in dirs ==> i >= 0
    decreases |dirs|
  {
    if |dirs| == 0 then -1
    else if dirs[|dirs| - 1] == dir then |dirs| - 1
    else DirIndex(dirs[..|dirs| - 1], dir)
  }

  /** The directory of each file. */
  function DirOfFiles(paths: map<int, string>): map<int, string> {
    map id | id in paths :: ParentDir(paths[id])
  }

  /** An instance of its directory's symbol on file `id`. */
  function WithDirInstance(objects: seq<ObjectRec>, dirOf: map<int, string>, dirs: seq<string>, first: int, id: int)
    : (r: seq<ObjectRec>)
    ensures |r| == |objects|
  {
    if id in dirOf && 0 < id <= |objects| && DirIndex(dirs, dirOf[id]) >= 0 then
      WithInstance(objects, id, WholeInstance(first + DirIndex(dirs, dirOf[id]), InstanceType.Containment,
                                              |objects[id - 1].content|))
    else objects
  }

  function WithDirInstances(
      objects: seq<ObjectRec>, dirOf: map<int, string>, dirs: seq<string>, first: int,
      files: seq<int>): (r: seq<ObjectRec>)
    ensures |r| == |objects|
    decreases |files|
  {
    if |files| == 0 then objects
    else
      var before := WithDirInstances(objects, dirOf, dirs, first, files[..|files| - 1]);
      WithDirInstance(before, dirOf, dirs, first, files[|files| - 1])
  }

  /** On the sentinel of its parent, a reference to `child`; `up` gives the parent. */
  function WithDirRef(
      up: string -> string, objects: seq<ObjectRec>, dirs: seq<string>, firstSymbol: int, firstObject: int,
      child: string)
    : (r: seq<ObjectRec>)
    ensures |r| == |objects|
  {
    if up(child) == child || DirIndex(dirs, child) < 0 || DirIndex(dirs, up(child)) < 0 then objects
    else
      WithRef(objects, firstObject + DirIndex(dirs, up(child)),
              RefInfo(firstSymbol + DirIndex(dirs, child), 0, 0, None))
  }

  function WithDirRefs(
      up: string -> string, objects: seq<ObjectRec>, dirs: seq<string>, firstSymbol: int, firstObject: int,
      children: seq<string>): (r: seq<ObjectRec>)
    ensures |r| == |objects|
    decreases |children|
  {
    if |children| == 0 then objects
    else
      var before := WithDirRefs(up, objects, dirs, firstSymbol, firstObject, children[..|children| - 1]);
      WithDirRef(up, before, dirs, firstSymbol, firstObject, children[|children| - 1])
  }

  /** The sentinels after `objects`, the directories' instances on the files and the sentinels' references. */
  function WithDirectories(
      up: string -> string, objects: seq<ObjectRec>, dirOf: map<int, string>, firstSymbol: int,
      dirs: seq<string>, files: seq<int>, children: seq<string>): (r: seq<ObjectRec>)
    ensures |r| == |objects| + |dirs|
  {
    var placed := WithDirInstances(objects + Sentinels(firstSymbol, dirs), dirOf, dirs, firstSymbol, files);
    WithDirRefs(up, placed, dirs, firstSymbol, |objects| + 1, children)
  }

  /** `dirs`, `files` and `children` are the orders in which the three maps are ranged over. */
  function CreateDirectorySymbols(p: Project, dirs: seq<string>, files: seq<int>, children: seq<string>): Project {
    if p.directoriesCreated || |dirs| == 0 then p
    else
      var firstSymbol := |p.symbols.list| + 1;
      p.(directoriesCreated := true,
         symbols := p.symbols.(list := p.symbols.list + DirSymbols(firstSymbol, dirs)),
         objects := WithDirectories(ParentDir, p.objects, DirOfFiles(p.files.pathByID), firstSymbol, dirs, files,
                                    children))
  }

  // ------------------------------------------------------------------
  // What the numbering reads

  /** The rank of every symbol, read from the project's list. */
  function RankBySymbol(list: seq<Symbol>): map<int, nat>
    decreases |list|
  {
    if |list| == 0 then map[]
    else RankBySymbol(list[..|list| - 1])[list[|list| - 1].localId := KindRank(list[|list| - 1].kind)]
  }

  /** The stated parents of one object of `n` instances, by position. */
  function StatedOf(t: InstanceTable, f: int, n: nat): map<int, int> {
    map k | 0 <= k < n && Slot(f, k) in t.stated :: t.stated[Slot(f, k)]
  }
}
