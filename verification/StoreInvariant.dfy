/** What every reachable project keeps: identities, caches and slots agree with each other. */
module StoreInvariant {
  import opened Containment
  import opened Entities
  import opened Numbering
  import opened Store

  // ------------------------------------------------------------------
  // Symbols and the objects that name them

  predicate IsSymbol(t: SymbolTable, id: int) {
    0 < id <= |t.list|
  }

  function KeyOfSymbol(t: SymbolTable, id: int): SymbolKey
    requires IsSymbol(t, id)
  {
    SymbolKey(t.list[id - 1].name, t.list[id - 1].scope)
  }

  /** A symbol that came from a declaration, not from a file, module or directory. */
  predicate IsDeclared(t: SymbolTable, id: int) {
    IsSymbol(t, id) && KeyOfSymbol(t, id) in t.byKey && t.byKey[KeyOfSymbol(t, id)] == id
  }

  ghost predicate SymbolsAgree(t: SymbolTable) {
    && (forall i | 0 <= i < |t.list| :: t.list[i].localId == i + 1)
    && (forall key | key in t.byKey :: IsSymbol(t, t.byKey[key]) && KeyOfSymbol(t, t.byKey[key]) == key)
    && (forall name | name in t.byFileAndName :: IsDeclared(t, t.byFileAndName[name]))
  }

  /** Ids follow the list, so the rank of each symbol is that of its own kind. */
  lemma {:induction false} RanksKnown(list: seq<Symbol>)
    requires forall i | 0 <= i < |list| :: list[i].localId == i + 1
    ensures forall id :: id in RankBySymbol(list) <==> 0 < id <= |list|
    ensures forall id | 0 < id <= |list| :: RankBySymbol(list)[id] == KindRank(list[id - 1].kind)
    decreases |list|
  {
    if |list| > 0 {
      RanksKnown(list[..|list| - 1]);
    }
  }

  /** Ranks in numbers: modules, directories and files before everything else, what is not known included. */
  lemma RanksInNumbers(list: seq<Symbol>, info: InstanceInfo)
    requires forall i | 0 <= i < |list| :: list[i].localId == i + 1
    ensures var rank, id := RankOf(info, RankBySymbol(list)), info.symbolLocalId;
            rank == if !(0 < id <= |list|) then 3
                    else match list[id - 1].kind
                         case Module => 0
                         case Directory => 1
                         case File => 2
                         case _ => 3
  {
    RanksKnown(list);
  }

  /** Every instance and every reference of the object names one of the first `count` symbols. */
  ghost predicate NamesKnown(count: nat, o: ObjectRec) {
    && (forall k | 0 <= k < |o.insts| :: 0 < o.insts[k].symbolLocalId <= count)
    && (forall k | 0 <= k < |o.refs| :: 0 < o.refs[k].toSymbolLocalId <= count)
  }

  ghost predicate AllNamed(count: nat, objects: seq<ObjectRec>) {
    forall o {:trigger objects[o]} | 0 <= o < |objects| :: NamesKnown(count, objects[o])
  }

  // ------------------------------------------------------------------
  // Files and modules

  predicate IsObject(objects: seq<ObjectRec>, id: int) {
    0 < id <= |objects|
  }

  ghost predicate FilesAgree(files: FileTable, objects: seq<ObjectRec>) {
    && (forall id | id in files.pathByID ::
          && IsObject(objects, id) && objects[id - 1].path == files.pathByID[id]
          && files.pathByID[id] in files.idByPath && files.idByPath[files.pathByID[id]] == id)
    && (forall path | path in files.idByPath ::
          files.idByPath[path] in files.pathByID && files.pathByID[files.idByPath[path]] == path)
  }

  /** One module: found by its name, its symbol of the right kind, its files its own. */
  ghost predicate ModuleAgrees(t: ModuleTable, fileIDs: set<int>, list: seq<Symbol>, m: int)
    requires m in t.byID
  {
    var info := t.byID[m];
    && 0 < m < t.nextID && info.name in t.byName && t.byName[info.name] == m
    && (info.symbolID != 0 ==>
          && 0 < info.symbolID <= |list|
          && list[info.symbolID - 1].kind == Module && list[info.symbolID - 1].name == info.name)
    && (forall i | 0 <= i < |info.fileIDs| ::
          info.fileIDs[i] in fileIDs && info.fileIDs[i] in t.ofFile && t.ofFile[info.fileIDs[i]] == m)
    && (forall i, j | 0 <= i < j < |info.fileIDs| :: info.fileIDs[i] != info.fileIDs[j])
  }

  ghost predicate ModulesAgree(t: ModuleTable, fileIDs: set<int>, list: seq<Symbol>) {
    && t.nextID > 0
    && (forall name | name in t.byName :: t.byName[name] in t.byID && t.byID[t.byName[name]].name == name)
    && (forall m {:trigger ModuleAgrees(t, fileIDs, list, m)} {:trigger t.byID[m]} | m in t.byID ::
          ModuleAgrees(t, fileIDs, list, m))
    && (forall f | f in t.ofFile :: f in fileIDs && t.ofFile[f] in t.byID && f in t.byID[t.ofFile[f]].fileIDs)
  }

  // ------------------------------------------------------------------
  // Declared instances

  predicate InRange(objects: seq<ObjectRec>, slot: Slot) {
    IsObject(objects, slot.file) && 0 <= slot.idx < |objects[slot.file - 1].insts|
  }

  function InfoAt(objects: seq<ObjectRec>, slot: Slot): InstanceInfo
    requires InRange(objects, slot)
  {
    objects[slot.file - 1].insts[slot.idx]
  }

  /** What tells a declared instance from every other. */
  function KeyAt(objects: seq<ObjectRec>, slot: Slot): InstanceKey
    requires InRange(objects, slot)
  {
    var info := InfoAt(objects, slot);
    InstanceKey(info.symbolLocalId, slot.file, info.start, info.end)
  }

  predicate SpanInside(span: Option<Span>, start: int, end: int) {
    span.Some? ==> start <= span.value.start <= span.value.end <= end
  }

  /** An extent inside its object, with its finer spans inside the extent. */
  predicate FitsObject(info: InstanceInfo, length: nat) {
    && OffsetsFitInt32(info.start, info.end) && info.end <= length
    && SpanInside(info.name, info.start, info.end) && SpanInside(info.signature, info.start, info.end)
    && SpanInside(info.content, info.start, info.end)
  }

  /** Instance `id` sits in its slot, and is found again by its key. */
  ghost predicate IsRecorded(
      t: InstanceTable, objects: seq<ObjectRec>, symbols: SymbolTable, fileIDs: set<int>, id: int)
    requires id in t.slots
  {
    var slot := t.slots[id];
    && 0 < id < t.nextID && slot.file in fileIDs && InRange(objects, slot)
    && IsDeclared(symbols, InfoAt(objects, slot).symbolLocalId)
    && FitsObject(InfoAt(objects, slot), |objects[slot.file - 1].content|)
    && KeyAt(objects, slot) in t.idByKey && t.idByKey[KeyAt(objects, slot)] == id
  }

  ghost predicate SlotsAgree(t: InstanceTable, objects: seq<ObjectRec>, symbols: SymbolTable, fileIDs: set<int>) {
    && t.nextID > 0
    && (forall id {:trigger IsRecorded(t, objects, symbols, fileIDs, id)} | id in t.slots ::
          IsRecorded(t, objects, symbols, fileIDs, id))
    && (forall key {:trigger t.idByKey[key]} | key in t.idByKey ::
          && t.idByKey[key] in t.slots && InRange(objects, t.slots[t.idByKey[key]])
          && KeyAt(objects, t.slots[t.idByKey[key]]) == key)
  }

  /** Some declared instance sits there. */
  ghost predicate IsTaken(t: InstanceTable, slot: Slot) {
    exists id :: id in t.slots && t.slots[id] == slot
  }

  /** A stated parent is an earlier declared instance of the same object. */
  ghost predicate StatedAgrees(t: InstanceTable) {
    forall slot | slot in t.stated ::
      && IsTaken(t, slot) && IsTaken(t, Slot(slot.file, t.stated[slot])) && 0 <= t.stated[slot] < slot.idx
  }

  // ------------------------------------------------------------------
  // Caches

  function KeyOfEntry(e: Entry): InstanceKey {
    InstanceKey(e.symbolID, e.fileID, e.start, e.end)
  }

  function LookupOfEntry(t: SymbolTable, e: Entry): LookupKey
    requires IsSymbol(t, e.symbolID)
  {
    LookupKey(KeyOfSymbol(t, e.symbolID).name, KeyOfSymbol(t, e.symbolID).scope, e.kind)
  }

  ghost predicate EntryAgrees(idByKey: map<InstanceKey, int>, symbols: SymbolTable, f: int, e: Entry) {
    && e.fileID == f && IsDeclared(symbols, e.symbolID)
    && KeyOfEntry(e) in idByKey && idByKey[KeyOfEntry(e)] == e.instanceID
  }

  ghost predicate HasEntry(byFile: map<int, seq<Entry>>, key: InstanceKey) {
    exists i :: 0 <= i < |Listed(byFile, key.fileID)| && KeyOfEntry(Listed(byFile, key.fileID)[i]) == key
  }

  ghost predicate Ascending(ids: seq<int>) {
    forall i, j | 0 <= i < j < |ids| :: ids[i] < ids[j]
  }

  function IDsOf(entries: seq<Entry>): (ids: seq<int>)
    ensures |ids| == |entries|
  {
    seq(|entries|, i requires 0 <= i < |entries| => entries[i].instanceID)
  }

  /** The per-file list holds each recorded instance of the file once, oldest first. */
  ghost predicate EntriesAgree(t: InstanceTable, symbols: SymbolTable) {
    && (forall f, i | 0 <= i < |Listed(t.byFile, f)| :: EntryAgrees(t.idByKey, symbols, f, Listed(t.byFile, f)[i]))
    && (forall f :: Ascending(IDsOf(Listed(t.byFile, f))))
    && (forall key {:trigger HasEntry(t.byFile, key)} | key in t.idByKey :: HasEntry(t.byFile, key))
  }

  /** Entry `i` of file `f` has that lookup key and that id. */
  ghost predicate Scans(byFile: map<int, seq<Entry>>, symbols: SymbolTable, key: LookupKey, f: int, i: int, id: int) {
    && 0 <= i < |Listed(byFile, f)| && Listed(byFile, f)[i].instanceID == id
    && IsSymbol(symbols, Listed(byFile, f)[i].symbolID) && LookupOfEntry(symbols, Listed(byFile, f)[i]) == key
  }

  ghost predicate IsFound(byFile: map<int, seq<Entry>>, symbols: SymbolTable, key: LookupKey, id: int) {
    exists f, i :: Scans(byFile, symbols, key, f, i, id)
  }

  /** The list for one key is the scan of all per-file lists, oldest first. */
  ghost predicate LookupIsScan(t: InstanceTable, symbols: SymbolTable, key: LookupKey) {
    var ids := Listed(t.byLookup, key);
    && Ascending(ids)
    && (forall k | 0 <= k < |ids| :: 0 < ids[k] < t.nextID)
    && (forall id :: id in ids <==> IsFound(t.byFile, symbols, key, id))
  }

  ghost predicate LookupAgrees(t: InstanceTable, symbols: SymbolTable) {
    forall key :: LookupIsScan(t, symbols, key)
  }

  // ------------------------------------------------------------------
  // All of it

  ghost predicate Invariant(p: Project) {
    && SymbolsAgree(p.symbols)
    && AllNamed(|p.symbols.list|, p.objects)
    && FilesAgree(p.files, p.objects)
    && ModulesAgree(p.modules, p.files.pathByID.Keys, p.symbols.list)
    && SlotsAgree(p.instances, p.objects, p.symbols, p.files.pathByID.Keys)
    && StatedAgrees(p.instances)
    && EntriesAgree(p.instances, p.symbols)
    && LookupAgrees(p.instances, p.symbols)
  }

  lemma EmptyKeeps()
    ensures Invariant(EMPTY)
  {
    assert forall f :: Listed(EMPTY.instances.byFile, f) == [];
    assert forall key :: Listed(EMPTY.instances.byLookup, key) == [];
  }

  /** No two declared instances share symbol, file and extent, and no two share a slot. */
  lemma InstancesAreDistinct(
      t: InstanceTable, objects: seq<ObjectRec>, symbols: SymbolTable, fileIDs: set<int>, a: int, b: int)
    requires SlotsAgree(t, objects, symbols, fileIDs) && a in t.slots && b in t.slots && a != b
    ensures t.slots[a] != t.slots[b]
    ensures InRange(objects, t.slots[a]) && InRange(objects, t.slots[b])
    ensures KeyAt(objects, t.slots[a]) != KeyAt(objects, t.slots[b])
  {
    assert IsRecorded(t, objects, symbols, fileIDs, a) && IsRecorded(t, objects, symbols, fileIDs, b);
  }

  // ------------------------------------------------------------------
  // Growth: what is already there stays where it is

  ghost predicate ObjectsGrow(a: seq<ObjectRec>, b: seq<ObjectRec>) {
    && |a| <= |b|
    && (forall o {:trigger a[o]} {:trigger b[o]} | 0 <= o < |a| ::
          b[o].content == a[o].content && b[o].path == a[o].path && a[o].insts <= b[o].insts)
  }

  ghost predicate SymbolsGrow(s: SymbolTable, t: SymbolTable) {
    s.list <= t.list && forall key | key in s.byKey :: key in t.byKey && t.byKey[key] == s.byKey[key]
  }

  lemma GrowKeepsInfo(a: seq<ObjectRec>, b: seq<ObjectRec>, slot: Slot)
    requires ObjectsGrow(a, b) && InRange(a, slot)
    ensures InRange(b, slot) && InfoAt(b, slot) == InfoAt(a, slot) && KeyAt(b, slot) == KeyAt(a, slot)
    ensures b[slot.file - 1].content == a[slot.file - 1].content
  {
    assert a[slot.file - 1].insts <= b[slot.file - 1].insts;
  }

  lemma GrowKeepsFiles(files: FileTable, a: seq<ObjectRec>, b: seq<ObjectRec>)
    requires FilesAgree(files, a) && ObjectsGrow(a, b)
    ensures FilesAgree(files, b)
  {}

  lemma GrowKeepsNamed(m: nat, n: nat, objects: seq<ObjectRec>)
    requires m <= n && AllNamed(m, objects)
    ensures AllNamed(n, objects)
  {
    forall o | 0 <= o < |objects| ensures NamesKnown(n, objects[o]) {
      assert NamesKnown(m, objects[o]);
    }
  }

  lemma GrowKeepsModules(t: ModuleTable, f: set<int>, g: set<int>, a: seq<Symbol>, b: seq<Symbol>)
    requires ModulesAgree(t, f, a) && f <= g && a <= b
    ensures ModulesAgree(t, g, b)
  {
    forall m | m in t.byID ensures ModuleAgrees(t, g, b, m) {
      assert ModuleAgrees(t, f, a, m);
    }
  }

  lemma GrowKeepsSlots(
      t: InstanceTable, a: seq<ObjectRec>, b: seq<ObjectRec>, s: SymbolTable, u: SymbolTable, f: set<int>, g: set<int>)
    requires SlotsAgree(t, a, s, f) && ObjectsGrow(a, b) && SymbolsGrow(s, u) && f <= g
    ensures SlotsAgree(t, b, u, g)
  {
    forall id | id in t.slots ensures IsRecorded(t, b, u, g, id) {
      assert IsRecorded(t, a, s, f, id);
      GrowKeepsInfo(a, b, t.slots[id]);
    }
    forall key | key in t.idByKey
      ensures t.idByKey[key] in t.slots && InRange(b, t.slots[t.idByKey[key]])
              && KeyAt(b, t.slots[t.idByKey[key]]) == key
    {
      GrowKeepsInfo(a, b, t.slots[t.idByKey[key]]);
    }
  }

  lemma GrowKeepsEntries(t: InstanceTable, s: SymbolTable, u: SymbolTable)
    requires EntriesAgree(t, s) && SymbolsGrow(s, u)
    ensures EntriesAgree(t, u)
  {
    forall f, i | 0 <= i < |Listed(t.byFile, f)| ensures EntryAgrees(t.idByKey, u, f, Listed(t.byFile, f)[i]) {
      assert EntryAgrees(t.idByKey, s, f, Listed(t.byFile, f)[i]);
    }
  }

  lemma GrowKeepsLookup(t: InstanceTable, s: SymbolTable, u: SymbolTable)
    requires EntriesAgree(t, s) && LookupAgrees(t, s) && SymbolsGrow(s, u)
    ensures LookupAgrees(t, u)
  {
    forall key ensures LookupIsScan(t, u, key) {
      assert LookupIsScan(t, s, key);
      forall id ensures IsFound(t.byFile, s, key, id) <==> IsFound(t.byFile, u, key, id) {
        if f, i :| Scans(t.byFile, s, key, f, i, id) {
          assert Scans(t.byFile, u, key, f, i, id);
        }
        if f, i :| Scans(t.byFile, u, key, f, i, id) {
          assert EntryAgrees(t.idByKey, s, f, Listed(t.byFile, f)[i]);
          assert Scans(t.byFile, s, key, f, i, id);
        }
      }
    }
  }

  /** Growing symbols, objects and files around an untouched instance table. */
  lemma GrowKeepsInstances(p: Project, q: Project)
    requires Invariant(p) && q.instances == p.instances
    requires ObjectsGrow(p.objects, q.objects) && SymbolsGrow(p.symbols, q.symbols)
    requires p.files.pathByID.Keys <= q.files.pathByID.Keys
    ensures SlotsAgree(q.instances, q.objects, q.symbols, q.files.pathByID.Keys)
    ensures StatedAgrees(q.instances) && EntriesAgree(q.instances, q.symbols) && LookupAgrees(q.instances, q.symbols)
  {
    GrowKeepsSlots(p.instances, p.objects, q.objects, p.symbols, q.symbols, p.files.pathByID.Keys,
                   q.files.pathByID.Keys);
    GrowKeepsEntries(p.instances, p.symbols, q.symbols);
    GrowKeepsLookup(p.instances, p.symbols, q.symbols);
  }
}
