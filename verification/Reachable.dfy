/**
 Any ranges, with any earlier declarations stated as parents, are those of some file: there is a
 run of accepted calls that declares them and marshals the project. What goes wrong on extents
 alone goes wrong for a caller too.
 */
module Reachable {
  import opened Collections
  import opened Containment
  import opened Entities
  import opened Paths
  import opened Store
  import opened StoreInvariant
  import opened Finalise
  import opened Shape
  import opened ShapeSteps
  import opened Directories
  import opened Effects
  import opened Runs
  import opened Declarations
  import opened Wholes
  import opened Finalised

  /** A declaration to be made, with its parent among the ones before it. */
  datatype Wanted = Wanted(start: int, end: int, parent: Option<nat>)

  /** Ranges that lie in the file and within reach of offsets, inverted ones included. */
  predicate CanBeMade(w: seq<Wanted>, length: nat) {
    forall i | 0 <= i < |w| ::
      && 0 <= w[i].start <= MAX_INT32 && 0 <= w[i].end <= length && w[i].end <= MAX_INT32
      && (w[i].parent.Some? ==> w[i].parent.value < i)
  }

  /** The extents of the file: itself, the declarations, its module and its directory. */
  function WantedExtents(w: seq<Wanted>, length: nat): (s: seq<Extent>)
    ensures |s| == |w| + 3
  {
    [Extent(0, ToInt32(length), 2)] + seq(|w|, i requires 0 <= i < |w| => Extent(w[i].start, w[i].end, 3))
    + [Extent(0, ToInt32(length), 0), Extent(0, ToInt32(length), 1)]
  }

  /** Position `k` of the file is a declaration with a stated parent. */
  predicate HasParent(w: seq<Wanted>, k: int) {
    1 <= k <= |w| && w[k - 1].parent.Some?
  }

  /** The stated parents, by position in the file. */
  function WantedParents(w: seq<Wanted>): map<int, int> {
    map k | 1 <= k <= |w| && HasParent(w, k) :: w[k - 1].parent.value + 1
  }

  // ------------------------------------------------------------------
  // The project so far

  function NameOf(i: nat): string {
    seq(i + 1, _ => 'x')
  }

  predicate IsInst(info: InstanceInfo, length: nat, w: seq<Wanted>, k: nat)
    requires k <= |w|
  {
    && info.symbolLocalId == k + 1
    && if k == 0 then info.start == 0 && info.end == ToInt32(length)
       else info.start == w[k - 1].start && info.end == w[k - 1].end
  }

  ghost predicate HasInsts(insts: seq<InstanceInfo>, length: nat, w: seq<Wanted>, n: nat)
    requires n <= |w|
  {
    |insts| == n + 1 && forall k | 0 <= k <= n :: IsInst(insts[k], length, w, k)
  }

  ghost predicate HasSymbols(t: SymbolTable, n: nat) {
    && |t.list| == n + 1 && (forall k | 0 <= k <= n :: t.list[k].kind == if k == 0 then File else Function)
    && forall key | key in t.byKey :: |key.name| <= n
  }

  ghost predicate HasTables(t: InstanceTable, w: seq<Wanted>, n: nat)
    requires n <= |w|
  {
    && t.nextID == n + 1 && (forall id :: id in t.slots <==> 1 <= id <= n)
    && (forall id | id in t.slots :: t.slots[id] == Slot(1, id))
    && (forall slot :: slot in t.stated <==> slot.file == 1 && slot.idx <= n && HasParent(w, slot.idx))
    && (forall slot | slot in t.stated :: t.stated[slot] == w[slot.idx - 1].parent.value + 1)
  }

  /** One module without a symbol and one file, with the first `n` declarations made. */
  ghost predicate IsMade(p: Project, length: nat, w: seq<Wanted>, n: nat) {
    && n <= |w| && p.files == FileTable(map[1 := "/a"], map["/a" := 1]) && !p.directoriesCreated
    && p.modules.byID.Keys == {1} && p.modules.byID[1] == ModuleInfo("m", 0, [1]) && p.modules.ofFile == map[1 := 1]
    && |p.objects| == 1 && |p.objects[0].content| == length && HasInsts(p.objects[0].insts, length, w, n)
    && HasSymbols(p.symbols, n) && HasTables(p.instances, w, n)
  }

  lemma FileIsThere(length: nat, w: seq<Wanted>) returns (projects: seq<Project>, calls: seq<Op>)
    ensures IsRun(projects, calls) && |projects| == |calls| + 1 && IsMade(projects[|calls|], length, w, 0)
  {
    var content := seq(length, _ => 0);
    projects, calls := ExtendRun([EMPTY], [], CallAddModule("m"));
    hide IsRun;
    projects, calls := ExtendRun(projects, calls, CallAddFile(Some(1), "/a", content, InstanceType.Source));
    assert projects[2].objects[0].content == content;
    var p := projects[|calls|];
    assert p.modules.byID[1].fileIDs == [] + [1];
    assert p.modules.byID.Keys == {1} && p.modules.byID[1] == ModuleInfo("m", 0, [1]);
    assert p.modules.ofFile == map[1 := 1] && p.files == FileTable(map[1 := "/a"], map["/a" := 1]);
    assert IsInst(p.objects[0].insts[0], length, w, 0);
    assert HasInsts(p.objects[0].insts, length, w, 0) && HasSymbols(p.symbols, 0) && HasTables(p.instances, w, 0);
  }

  function CallFor(w: Wanted, i: nat): SymbolCall {
    SymbolCall(1, 1, NameOf(i), Global, Function, Definition, w.start, w.end, Spans(None, None, None),
               if w.parent.Some? then w.parent.value + 1 else NO_PARENT)
  }

  /** The symbol of a name not used before. */
  lemma NewSymbol(t: SymbolTable, path: string, c: SymbolCall, n: nat)
    requires HasSymbols(t, n) && c.name == NameOf(n) && c.kind == Function
    ensures var (named, id) := NamedSymbol(t, path, c); id == n + 2 && HasSymbols(named, n + 1)
  {
    assert SymbolKey(c.name, c.scope) !in t.byKey;
  }

  /** A symbol beyond all others has no instance yet. */
  lemma NewKeyIsFree(p: Project, key: InstanceKey)
    requires Invariant(p) && key.symbolID > |p.symbols.list|
    ensures key !in p.instances.idByKey
  {
    hide SymbolsAgree, FilesAgree, ModulesAgree, StatedAgrees, EntriesAgree, LookupAgrees;
    forall known | known in p.instances.idByKey ensures known.symbolID <= |p.symbols.list| {
      var slot := p.instances.slots[p.instances.idByKey[known]];
      assert NamesKnown(|p.symbols.list|, p.objects[slot.file - 1]);
    }
  }

  lemma TablesGrow(t: InstanceTable, w: seq<Wanted>, n: nat, symbolID: int)
    requires n < |w| && HasTables(t, w, n) && (w[n].parent.Some? ==> w[n].parent.value < n)
    ensures HasTables(WithDeclared(t, CallFor(w[n], n), symbolID, w[n].start, w[n].end, n + 1), w, n + 1)
  {}

  lemma OneMoreMade(p: Project, length: nat, w: seq<Wanted>, n: nat)
    requires Invariant(p) && CanBeMade(w, length) && n < |w| && IsMade(p, length, w, n)
    ensures Accepts(p, CallFor(w[n], n)) && IsMade(Apply(p, CallAddSymbol(CallFor(w[n], n))), length, w, n + 1)
  {
    hide Invariant, NamedSymbol, WithDeclared, HasTables, HasSymbols;
    var c := CallFor(w[n], n);
    NewSymbol(p.symbols, "/a", c, n);
    var (named, id) := NamedSymbol(p.symbols, "/a", c);
    var q := p.(symbols := named);
    ListLength(p.symbols, n);
    NewKeyIsFree(p, InstanceKey(id, 1, c.start, c.end));
    assert AddSymbol(p, c).project == Declare(q, c, id, c.start, c.end);
    TablesGrow(p.instances, w, n, id);
    var insts := p.objects[0].insts + [DeclaredInfo(c, id, c.start, c.end)];
    forall k | 0 <= k <= n + 1 ensures IsInst(insts[k], length, w, k) {}
  }

  lemma ListLength(t: SymbolTable, n: nat)
    requires HasSymbols(t, n)
    ensures |t.list| == n + 1
  {}

  lemma {:induction false} AllMade(length: nat, w: seq<Wanted>, n: nat) returns (projects: seq<Project>, calls: seq<Op>)
    requires CanBeMade(w, length) && n <= |w|
    ensures IsRun(projects, calls) && |projects| == |calls| + 1 && IsMade(projects[|calls|], length, w, n)
  {
    hide IsMade, IsRun, Invariant, Shaped, CanBeMade, Apply;
    if n == 0 {
      projects, calls := FileIsThere(length, w);
    } else {
      projects, calls := AllMade(length, w, n - 1);
      EveryRunIsSound(projects, calls, |calls|);
      OneMoreMade(projects[|calls|], length, w, n - 1);
      projects, calls := ExtendRun(projects, calls, CallAddSymbol(CallFor(w[n - 1], n - 1)));
    }
  }

  // ------------------------------------------------------------------
  // The marshalled project

  /** The file's object has these extents, and these parents are stated in it. */
  ghost predicate IsFileOf(p: Project, w: seq<Wanted>, length: nat) {
    && IsObject(p.objects, 1) && FileExtents(p, 1) == WantedExtents(w, length)
    && StatedOf(p.instances, 1, |w| + 3) == WantedParents(w)
  }

  lemma ExtentIs(p: Project, f: int, k: nat)
    requires Invariant(p) && IsObject(p.objects, f) && k < |p.objects[f - 1].insts|
    ensures var info := p.objects[f - 1].insts[k];
            FileExtents(p, f)[k] == Extent(info.start, info.end, KindRank(KindOf(p.symbols.list, info.symbolLocalId)))
  {
    assert NamesKnown(|p.symbols.list|, p.objects[f - 1]);
    RanksKnown(p.symbols.list);
  }

  /** After the modules: the file has its module's instance last. */
  lemma ModuleComesNext(p: Project, length: nat, w: seq<Wanted>, modules: seq<int>) returns (symbol: int)
    requires Sound(p) && IsMade(p, length, w, |w|) && Enumerates(modules, p.modules.byID.Keys)
    ensures var q := CreateModuleSymbols(p, modules);
            && |q.objects| == 1 && |q.objects[0].content| == length && q.files == p.files && !q.directoriesCreated
            && p.symbols.list <= q.symbols.list && KindOf(q.symbols.list, symbol) == Module
            && q.objects[0].insts == p.objects[0].insts + [WholeInstance(symbol, InstanceType.Containment, length)]
  {
    hide Sound, HasInsts, HasTables, HasSymbols, ResolveImports, WholeInstance;
    var q := CreateEachModule(p, modules);
    SoundKeeps(p);
    assert 1 in p.modules.byID;
    assert 1 in modules;
    ModulesAsAsked(p, modules, 1);
    CreateEachModuleKeeps(p, modules);
    CreateEachModuleFiles(p, modules);
    ImportsKeepInsts(q);
    symbol := q.modules.byID[1].symbolID;
  }

  lemma ImportsKeepInsts(q: Project)
    requires Invariant(q)
    ensures OnlyRefsAdded(q.objects, ResolveImports(q, |q.imports|).objects)
  {
    hide SymbolsAgree, FilesAgree, SlotsAgree, StatedAgrees, EntriesAgree, LookupAgrees;
    ResolveImportsKeeps(q, |q.imports|);
  }

  /** After the directories: and its directory's behind that. */
  lemma DirectoryComesLast(q: Project, length: nat, dirs: seq<string>, files: seq<int>, children: seq<string>)
    returns (symbol: int)
    requires q.files == FileTable(map[1 := "/a"], map["/a" := 1]) && !q.directoriesCreated
    requires Ranges(q, dirs, files, children)
    requires |q.objects| == 1 && |q.objects[0].content| == length
    ensures var r := CreateDirectorySymbols(q, dirs, files, children);
            && |r.objects| > 0 && q.symbols.list <= r.symbols.list && KindOf(r.symbols.list, symbol) == Directory
            && r.objects[0].insts == q.objects[0].insts + [WholeInstance(symbol, InstanceType.Containment, length)]
  {
    hide CreateDirectorySymbols, Ranges;
    SomeDirectory(q, dirs, files, children, 1);
    DirectoriesOnly(q, dirs, files, children);
    symbol := DirectoryOnFile(q, dirs, files, children, 1);
  }

  lemma SameRanges(p: Project, q: Project, dirs: seq<string>, files: seq<int>, children: seq<string>)
    requires Ranges(p, dirs, files, children) && q.files == p.files
    ensures Ranges(q, dirs, files, children)
  {
    hide DirsOf, Enumerates;
  }

  lemma MarshalGivesFile(p: Project, length: nat, w: seq<Wanted>, op: Op)
    requires Sound(p) && IsMade(p, length, w, |w|) && op.CallMarshal? && Possible(p, op)
    ensures IsFileOf(Apply(p, op), w, length)
  {
    hide Sound, CreateDirectorySymbols, CreateModuleSymbols, Ranges, WantedExtents, FileExtents, WantedParents,
      HasTables,
      StatedOf, ToInt32, HasSymbols;
    var q, r := CreateModuleSymbols(p, op.modules), Apply(p, op);
    var last := ModuleComesNext(p, length, w, op.modules);
    SameRanges(p, q, op.dirs, op.files, op.children);
    var directory := DirectoryComesLast(q, length, op.dirs, op.files, op.children);
    StepKeeps(p, op);
    OthersDeclareNothing(p, op);
    SoundKeeps(r);
    var n := |w|;
    forall k: nat | k < n + 3 ensures FileExtents(r, 1)[k] == WantedExtents(w, length)[k] {
      ExtentIs(r, 1, k);
      if k <= n {
        KindOfMade(p, r, length, w, k);
      }
      WantedExtentAt(w, length, k);
    }
    ParentsAreWanted(r, length, w);
  }

  lemma WantedExtentAt(w: seq<Wanted>, length: nat, k: nat)
    requires k < |w| + 3
    ensures WantedExtents(w, length)[k]
            == if k == 0 then Extent(0, ToInt32(length), 2)
               else if k <= |w| then Extent(w[k - 1].start, w[k - 1].end, 3)
               else Extent(0, ToInt32(length), k - |w| - 1)
  {}

  lemma KindOfMade(p: Project, r: Project, length: nat, w: seq<Wanted>, k: nat)
    requires IsMade(p, length, w, |w|) && k <= |w| && p.symbols.list <= r.symbols.list
    ensures IsInst(p.objects[0].insts[k], length, w, k)
    ensures KindOf(r.symbols.list, p.objects[0].insts[k].symbolLocalId) == if k == 0 then File else Function
  {
    hide HasTables;
    assert r.symbols.list[k] == p.symbols.list[k];
  }

  lemma ParentsAreWanted(r: Project, length: nat, w: seq<Wanted>)
    requires HasTables(r.instances, w, |w|)
    ensures StatedOf(r.instances, 1, |w| + 3) == WantedParents(w)
  {}

  /** Every such list of declarations is made by some run that ends in a Marshal. */
  lemma EveryObjectCanBeMade(w: seq<Wanted>, length: nat) returns (projects: seq<Project>, calls: seq<Op>)
    requires CanBeMade(w, length)
    ensures IsRun(projects, calls) && IsMarshalled(calls) && |projects| == |calls| + 1
    ensures IsFileOf(projects[|calls|], w, length)
  {
    hide IsRun, IsMade, Sound, Apply, IsFileOf, CanBeMade;
    projects, calls := AllMade(length, w, |w|);
    EveryRunIsSound(projects, calls, |calls|);
    var op := SomeMarshal(projects[|calls|]);
    MarshalGivesFile(projects[|calls|], length, w, op);
    projects, calls := ExtendRun(projects, calls, op);
  }
}
