/**
 What a finalised project gives a file: its module's and its directory's instance exactly when
 it was added in time, and then the chain module, directory, file with all declarations inside.
 */
module Finalised {
  import opened Containment
  import opened Forest
  import opened DerivedTree
  import opened Numbering
  import opened Chain
  import opened Store
  import opened StoreInvariant
  import opened Shape
  import opened Runs
  import opened Declarations
  import opened Wholes
  import opened Determined

  // ------------------------------------------------------------------
  // Which files get their containers

  /** The call adds `f` as a new file. */
  predicate AddsFile(p: Project, op: Op, f: int) {
    && op.CallAddFile? && op.path !in p.files.idByPath && f == |p.objects| + 1
    && (op.moduleId.Some? ==> op.moduleId.value in p.modules.byID)
  }

  /** The file belongs to a module that has no symbol yet. */
  predicate IsModuleInTime(p: Project, op: Op) {
    && op.CallAddFile? && op.moduleId.Some? && op.moduleId.value in p.modules.byID
    && p.modules.byID[op.moduleId.value].symbolID == 0
  }

  /** What a file is owed is there as soon as its module or the directories have symbols, and nothing else ever is. */
  ghost predicate GetsWhatItIsOwed(p: Project, f: int, owesModule: bool, owesDirectory: bool, content: seq<int>) {
    && f in p.files.pathByID && IsObject(p.objects, f) && p.objects[f - 1].content == content
    && (HasModule(p, f) <==> owesModule && ModuleDone(p.modules, f))
    && (owesModule ==> f in p.modules.ofFile)
    && (!owesModule && f in p.modules.ofFile ==> ModuleDone(p.modules, f))
    && (HasDirectory(p, f) <==> owesDirectory && p.directoriesCreated)
    && (!owesDirectory ==> p.directoriesCreated)
  }

  lemma NewFileIsBare(p: Project, op: Op, f: int)
    requires Sound(p) && AddsFile(p, op, f)
    ensures var q := Apply(p, op);
            && f in q.files.pathByID && IsObject(q.objects, f) && q.objects[f - 1].content == op.content
            && |q.objects[f - 1].insts| == 1 && KindOf(q.symbols.list, q.objects[f - 1].insts[0].symbolLocalId) == File
            && (f in q.modules.ofFile <==> op.moduleId.Some?)
            && (ModuleDone(q.modules, f) <==> op.moduleId.Some? && !IsModuleInTime(p, op))
            && q.directoriesCreated == p.directoriesCreated
  {
    hide Shaped, SymbolsAgree, AllNamed, SlotsAgree, StatedAgrees, EntriesAgree, LookupAgrees;
    assert f !in p.files.pathByID;
    assert f !in p.modules.ofFile;
  }

  /** A new file has neither instance. */
  lemma NewFileIsOwed(p: Project, op: Op, f: int)
    requires Sound(p) && AddsFile(p, op, f)
    ensures GetsWhatItIsOwed(Apply(p, op), f, IsModuleInTime(p, op), !p.directoriesCreated, op.content)
  {
    hide Sound, Apply, ModuleDone;
    NewFileIsBare(p, op, f);
    var q := Apply(p, op);
    OneInstanceOnly(q.symbols.list, q.instances, f, q.objects[f - 1]);
  }

  lemma OneInstanceOnly(list: seq<Symbol>, t: InstanceTable, f: int, o: ObjectRec)
    requires |o.insts| == 1
    ensures forall kind :: HasWhole(list, t, f, o, kind) ==> kind == KindOf(list, o.insts[0].symbolLocalId)
  {}

  lemma ExactKeepsOwed(
      p: Project, q: Project, f: int, modules: bool, directories: bool, m: bool, d: bool, content: seq<int>)
    requires IsExact(p, q, f, modules, directories) && GetsWhatItIsOwed(p, f, m, d, content)
    ensures GetsWhatItIsOwed(q, f, m, d, content)
  {
    hide HasModule, HasDirectory, ModuleDone;
  }

  lemma {:induction false} FileStaysOwed(projects: seq<Project>, calls: seq<Op>, i: nat, j: nat, f: int)
    requires IsRun(projects, calls) && i < j < |projects| && AddsFile(projects[i], calls[i], f)
    ensures GetsWhatItIsOwed(projects[j], f, IsModuleInTime(projects[i], calls[i]), !projects[i].directoriesCreated,
                             calls[i].content)
    decreases j
  {
    hide IsRun, Sound, IsModuleInTime, GetsWhatItIsOwed, Apply, Possible, IsExact;
    RunLength(projects, calls);
    var p, op := projects[j - 1], calls[j - 1];
    EveryRunIsSound(projects, calls, j - 1);
    StepOfRun(projects, calls, j - 1);
    if i == j - 1 {
      NewFileIsOwed(p, op, f);
    } else {
      FileStaysOwed(projects, calls, i, j - 1, f);
      OwedIsAFile(p, f, IsModuleInTime(projects[i], calls[i]), !projects[i].directoriesCreated, calls[i].content);
      StepIsExact(p, op, f);
      ExactKeepsOwed(p, projects[j], f, CreatesModules(op), op.CallMarshal?,
                     IsModuleInTime(projects[i], calls[i]), !projects[i].directoriesCreated, calls[i].content);
    }
  }

  lemma RunLength(projects: seq<Project>, calls: seq<Op>)
    requires IsRun(projects, calls)
    ensures |projects| == |calls| + 1
  {}

  lemma OwedIsAFile(p: Project, f: int, m: bool, d: bool, content: seq<int>)
    requires GetsWhatItIsOwed(p, f, m, d, content)
    ensures f in p.files.pathByID
  {}

  /** The last call was a Marshal. */
  predicate IsMarshalled(calls: seq<Op>) {
    |calls| > 0 && calls[|calls| - 1].CallMarshal?
  }

  /**
   After a Marshal a file has its module's instance exactly when its module had no symbol when
   it was added, and its directory's exactly when directories had none.
   */
  lemma ContainersComeInTime(projects: seq<Project>, calls: seq<Op>, i: nat, f: int)
    requires IsRun(projects, calls) && IsMarshalled(calls) && i < |calls| && AddsFile(projects[i], calls[i], f)
    ensures var q := projects[|calls|];
            && Sound(q) && f in q.files.pathByID && IsObject(q.objects, f)
            && q.objects[f - 1].content == calls[i].content
            && (HasModule(q, f) <==> IsModuleInTime(projects[i], calls[i]))
            && (HasDirectory(q, f) <==> !projects[i].directoriesCreated)
  {
    hide Sound, Apply, Possible, HasModule, HasDirectory, ModuleDone;
    var n := |calls| - 1;
    var p, op := projects[n], calls[n];
    EveryRunIsSound(projects, calls, n);
    EveryRunIsSound(projects, calls, n + 1);
    StepOfRun(projects, calls, n);
    FileStaysOwed(projects, calls, i, n + 1, f);
    FileStaysOwed(projects, calls, i, n, f);
    StepIsExact(p, op, f);
  }

  // ------------------------------------------------------------------
  // The numbering of a covered file

  /** The extents that the numbering of file `f` works on. */
  function FileExtents(p: Project, f: int): (s: seq<Extent>)
    requires IsObject(p.objects, f)
    ensures |s| == |p.objects[f - 1].insts|
  {
    Extents(p.objects[f - 1].insts, RankBySymbol(p.symbols.list))
  }

  /** A file's length survives the narrowing to 32 bits well enough: it is in range, or wraps to the largest value. */
  predicate LengthFits(length: nat) {
    length <= MAX_INT32 || length % 0x1_0000_0000 == MAX_INT32
  }

  /** An end that a declaration in a file of that length can have. */
  predicate IsPossibleEnd(end: int, length: nat) {
    0 <= end <= length && end <= MAX_INT32
  }

  /** Exactly then the narrowed length bounds every extent that a declaration in the file can have. */
  lemma FittingLengthCovers(length: nat)
    ensures LengthFits(length) <==> forall end | IsPossibleEnd(end, length) :: end <= ToInt32(length)
  {
    if !LengthFits(length) {
      assert IsPossibleEnd(MAX_INT32, length);
    }
  }

  lemma TakenIsDeclared(p: Project, f: int, k: int)
    requires Invariant(p) && DeclarationsOnly(p) && IsObject(p.objects, f) && 0 <= k < |p.objects[f - 1].insts|
    requires IsTaken(p.instances, Slot(f, k))
    ensures FileExtents(p, f)[k].rank == 3 && FileExtents(p, f)[k].start >= 0 && FileExtents(p, f)[k].end >= 0
    ensures FileExtents(p, f)[k].end <= |p.objects[f - 1].content| && FileExtents(p, f)[k].end <= MAX_INT32
  {
    var id :| id in p.instances.slots && p.instances.slots[id] == Slot(f, k);
    RanksKnown(p.symbols.list);
    assert IsRecorded(p.instances, p.objects, p.symbols, p.files.pathByID.Keys, id);
    var symbol := p.objects[f - 1].insts[k].symbolLocalId;
    assert IsDeclared(p.symbols, symbol);
    assert p.symbols.byKey[KeyOfSymbol(p.symbols, symbol)] == symbol;
  }

  lemma WholeHasExtent(p: Project, f: int, k: int)
    requires Invariant(p) && FileIsShaped(p, f) && IsWhole(p.instances, f, p.objects[f - 1], k)
    ensures var symbol := p.objects[f - 1].insts[k].symbolLocalId;
            FileExtents(p, f)[k]
              == Extent(0, ToInt32(|p.objects[f - 1].content|), KindRank(KindOf(p.symbols.list, symbol)))
  {
    assert NamesKnown(|p.symbols.list|, p.objects[f - 1]);
    RanksKnown(p.symbols.list);
  }

  lemma WholeIsOneOfThree(
      list: seq<Symbol>, t: InstanceTable, f: int, o: ObjectRec, moduleDone: bool, dirsDone: bool, m: int, d: int,
      x: int)
    requires IsShaped(list, t, f, o, moduleDone, dirsDone)
    requires IsWhole(t, f, o, m) && KindOf(list, o.insts[m].symbolLocalId) == Module
    requires IsWhole(t, f, o, d) && KindOf(list, o.insts[d].symbolLocalId) == Directory
    requires IsWhole(t, f, o, x)
    ensures x == m || x == d || x == 0
  {}

  /** No declared instance ends beyond what the whole-file instances cover. */
  ghost predicate AllEndWithin(p: Project, f: int)
    requires IsObject(p.objects, f)
  {
    forall k | 0 <= k < |p.objects[f - 1].insts| && IsTaken(p.instances, Slot(f, k)) ::
      FileExtents(p, f)[k].end <= ToInt32(|p.objects[f - 1].content|)
  }

  lemma FittingFileEndsWithin(p: Project, f: int)
    requires Invariant(p) && DeclarationsOnly(p) && IsObject(p.objects, f) && LengthFits(|p.objects[f - 1].content|)
    ensures AllEndWithin(p, f)
  {
    hide Invariant, DeclarationsOnly, FileExtents, IsTaken, LengthFits, ToInt32;
    FittingLengthCovers(|p.objects[f - 1].content|);
    forall k | 0 <= k < |p.objects[f - 1].insts| && IsTaken(p.instances, Slot(f, k))
      ensures FileExtents(p, f)[k].end <= ToInt32(|p.objects[f - 1].content|)
    {
      TakenIsDeclared(p, f, k);
      assert IsPossibleEnd(FileExtents(p, f)[k].end, |p.objects[f - 1].content|);
    }
  }

  /** Where the three containers stand, and that all the rest are declarations. */
  ghost predicate AreContainers(p: Project, f: int, m: nat, d: nat)
    requires IsObject(p.objects, f)
  {
    var s, length, n := FileExtents(p, f), ToInt32(|p.objects[f - 1].content|), |p.objects[f - 1].insts|;
    && m < n && d < n && 0 < n && m != d && m != 0 && d != 0
    && s[m] == Extent(0, length, 0) && s[d] == Extent(0, length, 1) && s[0] == Extent(0, length, 2)
    && (forall x | 0 <= x < n && x != m && x != d && x != 0 :: s[x].rank == 3 && s[x].start >= 0)
    && (forall x | 0 <= x < n :: IsTaken(p.instances, Slot(f, x)) <==> x != m && x != d && x != 0)
  }

  lemma ContainersOf(p: Project, f: int) returns (m: nat, d: nat)
    requires Sound(p) && DeclarationsOnly(p) && f in p.files.pathByID && IsObject(p.objects, f)
    requires HasModule(p, f) && HasDirectory(p, f)
    ensures AreContainers(p, f, m, d)
  {
    hide DeclarationsOnly, FileExtents, IsTaken, Invariant, ToInt32;
    var o := p.objects[f - 1];
    var t, list := p.instances, p.symbols.list;
    assert FileIsShaped(p, f);
    m :| IsWhole(t, f, o, m) && KindOf(list, o.insts[m].symbolLocalId) == Module;
    d :| IsWhole(t, f, o, d) && KindOf(list, o.insts[d].symbolLocalId) == Directory;
    WholeHasExtent(p, f, m);
    WholeHasExtent(p, f, d);
    WholeHasExtent(p, f, 0);
    forall x: nat | x < |o.insts| && x != m && x != d && x != 0
      ensures IsTaken(t, Slot(f, x)) && FileExtents(p, f)[x].rank == 3 && FileExtents(p, f)[x].start >= 0
    {
      if !IsTaken(t, Slot(f, x)) {
        WholeIsOneOfThree(list, t, f, o, ModuleDone(p.modules, f), p.directoriesCreated, m, d, x);
      }
      TakenIsDeclared(p, f, x);
    }
  }

  /** A file with both instances and no declaration beyond its end has the containers around everything. */
  lemma CoveredFileHasContainers(p: Project, f: int) returns (m: nat, d: nat)
    requires Sound(p) && DeclarationsOnly(p) && f in p.files.pathByID && IsObject(p.objects, f)
    requires HasModule(p, f) && HasDirectory(p, f) && AllEndWithin(p, f)
    ensures HasContainers(FileExtents(p, f), m, d, 0, ToInt32(|p.objects[f - 1].content|))
    ensures StatedAmongRest(|FileExtents(p, f)|, StatedOf(p.instances, f, |FileExtents(p, f)|), m, d, 0)
  {
    hide Sound, DeclarationsOnly, FileExtents, IsTaken, HasModule, HasDirectory, ToInt32, StatedOf;
    m, d := ContainersOf(p, f);
    SoundKeeps(p);
    StatedStaysAmongTaken(p, f, p.objects[f - 1], m, d);
  }

  lemma StatedStaysAmongTaken(p: Project, f: int, o: ObjectRec, m: nat, d: nat)
    requires Invariant(p)
    requires IsWhole(p.instances, f, o, m) && IsWhole(p.instances, f, o, d) && IsWhole(p.instances, f, o, 0)
    ensures StatedAmongRest(|o.insts|, StatedOf(p.instances, f, |o.insts|), m, d, 0)
  {
    var stated := StatedOf(p.instances, f, |o.insts|);
    forall c | Applies(|o.insts|, stated, c)
      ensures c != m && c != d && c != 0 && stated[c] != m && stated[c] != d && stated[c] != 0
    {
      assert Slot(f, c) in p.instances.stated;
      assert IsTaken(p.instances, Slot(f, c)) && IsTaken(p.instances, Slot(f, stated[c]));
    }
  }

  // ------------------------------------------------------------------
  // The chain

  /** The tree of the file's object is the chain module, directory, file with all the rest inside. */
  ghost predicate IsChainedFile(p: Project, f: int)
    requires IsObject(p.objects, f)
  {
    exists m: nat, d: nat :: IsChainOf(p, f, m, d)
  }

  ghost predicate IsChainOf(p: Project, f: int, m: nat, d: nat)
    requires IsObject(p.objects, f)
  {
    var s := FileExtents(p, f);
    m < |s| && d < |s| && IsChained(ChosenParents(s, StatedOf(p.instances, f, |s|)), m, d, 0)
  }

  /** Only instances that no declaration added can contain one such. */
  lemma WholeParentIsWhole(p: Project, f: int, w: nat)
    requires Sound(p) && DeclarationsOnly(p) && f in p.files.pathByID && FileIsShaped(p, f)
    requires LengthFits(|p.objects[f - 1].content|) && IsWhole(p.instances, f, p.objects[f - 1], w)
    ensures var s := FileExtents(p, f);
            var x := ChosenParents(s, StatedOf(p.instances, f, |s|))[w];
            x >= 0 ==> IsWhole(p.instances, f, p.objects[f - 1], x) && s[x].rank < s[w].rank
  {
    hide DeclarationsOnly, OrderOf, Derived, IsShaped, FileExtents, Sound, LengthFits, ChosenParents, StatedOf, IsTaken;
    var s := FileExtents(p, f);
    var x := ChosenParents(s, StatedOf(p.instances, f, |s|))[w];
    WholeParentIsDerived(p, f, w);
    DerivedIsInnermost(s, OrderOf(s), w);
    if x >= 0 {
      SoundKeeps(p);
      WholeHasExtent(p, f, w);
      TakenContainsNoWhole(p, f, x, w);
      WholeHasExtent(p, f, x);
    }
  }

  lemma TakenContainsNoWhole(p: Project, f: int, x: nat, w: nat)
    requires Invariant(p) && DeclarationsOnly(p) && FileIsShaped(p, f) && LengthFits(|p.objects[f - 1].content|)
    requires IsWhole(p.instances, f, p.objects[f - 1], w) && x < |p.objects[f - 1].insts|
    ensures Contains(FileExtents(p, f)[x], FileExtents(p, f)[w]) ==> IsWhole(p.instances, f, p.objects[f - 1], x)
  {
    hide Invariant, DeclarationsOnly, FileExtents, IsTaken, IsShaped, LengthFits, ToInt32;
    WholeHasExtent(p, f, w);
    WholeRank(p, f, w);
    FittingFileEndsWithin(p, f);
    if IsTaken(p.instances, Slot(f, x)) {
      TakenIsDeclared(p, f, x);
    }
  }

  lemma SoundKeeps(p: Project)
    requires Sound(p)
    ensures Invariant(p)
  {}

  lemma WholeRank(p: Project, f: int, w: nat)
    requires FileIsShaped(p, f) && IsWhole(p.instances, f, p.objects[f - 1], w)
    ensures var kind := KindOf(p.symbols.list, p.objects[f - 1].insts[w].symbolLocalId);
            kind == Module || kind == Directory || kind == File
  {}

  /** Parents are stated of declared instances only. */
  lemma WholeParentIsDerived(p: Project, f: int, w: nat)
    requires Sound(p) && IsObject(p.objects, f) && IsWhole(p.instances, f, p.objects[f - 1], w)
    ensures var s := FileExtents(p, f);
            ChosenParents(s, StatedOf(p.instances, f, |s|))[w] == Derived(s, OrderOf(s))[w]
  {
    hide OrderOf, Derived, IsForest, FileExtents, Sound;
    var s := FileExtents(p, f);
    DerivedIsForest(s, OrderOf(s));
    WholeIsNotStated(p, f, w);
  }

  lemma WholeIsNotStated(p: Project, f: int, w: nat)
    requires Sound(p) && IsObject(p.objects, f) && IsWhole(p.instances, f, p.objects[f - 1], w)
    ensures !Applies(|FileExtents(p, f)|, StatedOf(p.instances, f, |FileExtents(p, f)|), w)
  {
    hide Shaped, SymbolsAgree, AllNamed, FilesAgree, ModulesAgree, SlotsAgree, EntriesAgree, LookupAgrees;
  }

  lemma KindsByRank(kind: SymbolKind)
    ensures KindRank(kind) == 0 <==> kind == Module
    ensures KindRank(kind) == 1 <==> kind == Directory
    ensures KindRank(kind) == 2 <==> kind == File
  {}

  lemma ChainedHasContainers(p: Project, f: int, m: nat, d: nat)
    requires Sound(p) && DeclarationsOnly(p) && f in p.files.pathByID && IsObject(p.objects, f)
    requires LengthFits(|p.objects[f - 1].content|) && IsChainOf(p, f, m, d)
    ensures HasModule(p, f) && HasDirectory(p, f)
  {
    hide DeclarationsOnly, ChosenParents, FileExtents;
    assert FileIsShaped(p, f);
    WholeParentIsWhole(p, f, 0);
    WholeParentIsWhole(p, f, d);
    WholeHasExtent(p, f, 0);
    WholeHasExtent(p, f, d);
    WholeHasExtent(p, f, m);
    KindsByRank(KindOf(p.symbols.list, p.objects[f - 1].insts[0].symbolLocalId));
    KindsByRank(KindOf(p.symbols.list, p.objects[f - 1].insts[d].symbolLocalId));
    KindsByRank(KindOf(p.symbols.list, p.objects[f - 1].insts[m].symbolLocalId));
  }

  /** In a file whose length fits, the chain is there exactly when both instances are. */
  lemma ChainedIffContainers(p: Project, f: int)
    requires Sound(p) && DeclarationsOnly(p) && f in p.files.pathByID && IsObject(p.objects, f)
    requires LengthFits(|p.objects[f - 1].content|)
    ensures IsChainedFile(p, f) <==> HasModule(p, f) && HasDirectory(p, f)
  {
    hide Sound, DeclarationsOnly, HasModule, HasDirectory, ChosenParents, StatedOf, IsChained;
    if m: nat, d: nat :| IsChainOf(p, f, m, d) {
      ChainedHasContainers(p, f, m, d);
    }
    if HasModule(p, f) && HasDirectory(p, f) {
      SoundKeeps(p);
      FittingFileEndsWithin(p, f);
      var m, d := CoveredFileHasContainers(p, f);
      var s := FileExtents(p, f);
      ContainersAreOutermost(s, StatedOf(p.instances, f, |s|), m, d, 0, ToInt32(|p.objects[f - 1].content|));
      assert IsChainOf(p, f, m, d);
    }
  }

  /** In numbers. */
  lemma ChainedFileInNumbers(p: Project, f: int, num: seq<Place>, points: seq<Point>)
    requires IsObject(p.objects, f) && |p.objects[f - 1].insts| > 0 && AreObjectNumbers(p, f - 1, num, points)
    ensures IsChainedFile(p, f) <==> exists m: nat, d: nat :: IsChainInNumbers(num, m, d, 0)
  {
    hide ChosenParents, OrderOf, RankBySymbol, StatedOf, IsChained, IsChainInNumbers, IsFirstRoot, IsTimeline;
    var s := FileExtents(p, f);
    var parent, order := ChosenParents(s, StatedOf(p.instances, f, |s|)), OrderOf(s);
    var folded := FlagsOf(p.objects[f - 1].insts);
    assert IsNumbering(parent, order, folded, num) && |num| == |s|;
    forall m: nat, d: nat | m < |s| && d < |s|
      ensures IsChained(parent, m, d, 0) <==> IsChainInNumbers(num, m, d, 0)
    {
      ChainedIffInNumbers(parent, order, folded, num, m, d, 0);
    }
    if m: nat, d: nat :| IsChainInNumbers(num, m, d, 0) {
      ChainInRange(num, m, d);
      assert IsChainOf(p, f, m, d);
    }
    if m: nat, d: nat :| IsChainOf(p, f, m, d) {
      assert IsChainInNumbers(num, m, d, 0);
    }
  }

  lemma ChainInRange(num: seq<Place>, m: nat, d: nat)
    requires IsChainInNumbers(num, m, d, 0)
    ensures m < |num| && d < |num|
  {}

  /**
   After a run that asks for declarations only and ends in a Marshal, a file whose length fits
   has module, directory and file at levels 0, 1 and 2 and every declaration strictly inside
   the file, whatever parents were stated, exactly when it was added before its module and the
   directories had symbols.
   */
  lemma MarshalledFilesAreChained(
      projects: seq<Project>, calls: seq<Op>, i: nat, f: int, num: seq<Place>, points: seq<Point>)
    requires IsRun(projects, calls) && IsMarshalled(calls) && DeclaresOnly(calls)
    requires i < |calls| && AddsFile(projects[i], calls[i], f) && LengthFits(|calls[i].content|)
    requires IsObject(projects[|calls|].objects, f) && AreObjectNumbers(projects[|calls|], f - 1, num, points)
    ensures (exists m: nat, d: nat :: IsChainInNumbers(num, m, d, 0))
            <==> IsModuleInTime(projects[i], calls[i]) && !projects[i].directoriesCreated
  {
    hide IsRun, Sound, DeclaresOnly, DeclarationsOnly, AddsFile, IsModuleInTime, IsChainInNumbers, IsChainedFile,
      AreObjectNumbers, HasModule, HasDirectory, LengthFits;
    RunLength(projects, calls);
    var q := projects[|calls|];
    ContainersComeInTime(projects, calls, i, f);
    RunDeclaresOnly(projects, calls, |calls|);
    ChainedIffContainers(q, f);
    FileHasInstance(q, f);
    ChainedFileInNumbers(q, f, num, points);
  }

  lemma FileHasInstance(p: Project, f: int)
    requires Sound(p) && f in p.files.pathByID
    ensures IsObject(p.objects, f) && |p.objects[f - 1].insts| > 0
  {
    assert FileIsShaped(p, f);
  }
}
