/**
 A file's calls on the index, among whatever else is called, and the object they leave: that of
 the tree in which every literal is found under its namesake.
 */
module FileRun {
  import opened Containment
  import opened Forest
  import opened Entities
  import opened Numbering
  import opened Guarantees
  import opened Store
  import opened StoreInvariant
  import opened Shape
  import opened Runs
  import opened Declarations
  import opened Wholes
  import opened Finalised
  import opened Determined
  import opened Syntax
  import opened Literals
  import opened FileLiterals
  import opened Attribution
  import opened LiteralTree
  import opened Ledger
  import opened Calls
  import opened Namesakes
  import opened FileSteps

  /** The file's own calls among all calls, in order. */
  function Marked(marks: seq<Option<Call>>): (r: seq<Call>)
    decreases |marks|
  {
    if |marks| == 0 then []
    else
      var last := marks[|marks| - 1];
      Marked(marks[..|marks| - 1]) + if last.Some? then [last.value] else []
  }

  lemma {:induction false} MarkedSoFar(marks: seq<Option<Call>>, j: nat)
    requires j <= |marks|
    ensures Marked(marks[..j]) <= Marked(marks)
    decreases |marks|
  {
    if j == |marks| {
      assert marks[..j] == marks;
    } else {
      var before := marks[..|marks| - 1];
      MarkedSoFar(before, j);
      assert before[..j] == marks[..j];
    }
  }

  /** A marked call makes the file's next call and is accepted; any other keeps apart from the file's literals. */
  ghost predicate IsCallOf(p: Project, op: Op, mark: Option<Call>, scope: Inst -> Scope, f: int, adds: seq<Call>) {
    match mark
    case Some(a) => op.CallAddSymbol? && Accepts(p, op.call) && Asks(LedgerOf(p, scope, f), op.call, a)
    case None => op.CallAddSymbol? ==> KeepsApart(f, adds, op.call)
  }

  /** A run in which the calls `adds` are made for file `f`, owners first, among any others. */
  ghost predicate IsFileRun(
      projects: seq<Project>, calls: seq<Op>, marks: seq<Option<Call>>, scope: Inst -> Scope, f: int, adds: seq<Call>)
  {
    && IsRun(projects, calls) && DeclaresOnly(calls) && |marks| == |calls| && IsOrderOf(Marked(marks), adds)
    && forall i | 0 <= i < |calls| :: IsCallOf(projects[i], calls[i], marks[i], scope, f, adds)
  }

  /** The file is there in the end, with that many bytes. */
  predicate HasFile(p: Project, f: int, length: nat) {
    f in p.files.pathByID && IsObject(p.objects, f) && |p.objects[f - 1].content| == length
  }

  /** A file stays, and so do its bytes. */
  lemma {:induction false} FileStays(projects: seq<Project>, calls: seq<Op>, i: nat, j: nat, f: int)
    requires IsRun(projects, calls) && i <= j < |projects| && f in projects[i].files.pathByID
    ensures f in projects[j].files.pathByID && IsObject(projects[i].objects, f) && IsObject(projects[j].objects, f)
    ensures projects[j].objects[f - 1].content == projects[i].objects[f - 1].content
    decreases j
  {
    hide Sound, Apply, Possible, IsExact, IsRun;
    RunLength(projects, calls);
    if i < j {
      FileStays(projects, calls, i, j - 1, f);
      EveryRunIsSound(projects, calls, j - 1);
      StepOfRun(projects, calls, j - 1);
      StepIsExact(projects[j - 1], calls[j - 1], f);
      ExactKeepsFile(projects[j - 1], calls[j - 1], f);
    } else {
      EveryRunIsSound(projects, calls, i);
      FileHasInstance(projects[i], f);
    }
  }

  lemma ExactKeepsFile(p: Project, op: Op, f: int)
    requires Possible(p, op) && IsExact(p, Apply(p, op), f, CreatesModules(op), op.CallMarshal?)
    ensures f in Apply(p, op).files.pathByID && IsObject(p.objects, f) && IsObject(Apply(p, op).objects, f)
    ensures Apply(p, op).objects[f - 1].content == p.objects[f - 1].content
  {
    hide Apply, Possible;
  }

  lemma OneStepRecords(
      p: Project, op: Op, mark: Option<Call>, scope: Inst -> Scope, f: int, length: nat,
      decls: seq<Decl>, pkg: string, done: seq<Call>, made: seq<Call>)
    requires FileNested(decls, 0, length) && Sound(p) && Possible(p, op) && IsOrderOf(made, FileAdds(decls, pkg))
    requires IsCallOf(p, op, mark, scope, f, FileAdds(decls, pkg))
    requires f in p.files.pathByID ==> HasFile(p, f, length)
    requires Records(LedgerOf(p, scope, f), FileAdds(decls, pkg), done)
    requires done + (if mark.Some? then [mark.value] else []) <= made
    ensures Records(LedgerOf(Apply(p, op), scope, f), FileAdds(decls, pkg),
                    done + if mark.Some? then [mark.value] else [])
  {
    hide FileNested, FileAdds, Invariant, Shaped, AddSymbol, Records, Asks, KeepsApart, IsInTurn, Insts, IsOrderOf;
    var adds := FileAdds(decls, pkg);
    assert done + [] == done;
    FileInstsLie(decls, pkg, 0, length);
    if mark.Some? {
      FileIsInTurn(decls, pkg, 0, length, made, |done|);
      assert made[..|done|] == done && made[|done|] == mark.value;
      InstOf(adds, mark.value);
      AskedOfFile(p, op.call, scope, f, mark.value);
      MarkedStep(p, op.call, LedgerOf(p, scope, f), adds, done, mark.value);
    } else if op.CallAddSymbol? {
      if Accepts(p, op.call) {
        UnmarkedStep(p, op.call, LedgerOf(p, scope, f), adds, done);
      }
    } else {
      hide Apply;
      OthersDeclareNothing(p, op);
    }
  }

  lemma AskedOfFile(p: Project, c: SymbolCall, scope: Inst -> Scope, f: int, a: Call)
    requires Asks(LedgerOf(p, scope, f), c, a)
    ensures c.fileId == f
  {}

  lemma CallLies(adds: seq<Call>, n: nat, length: int)
    requires n < |adds| && forall x | x in Insts(adds) :: LiesIn(x, 0, length)
    ensures LiesIn(adds[n].inst, 0, length)
  {
    assert adds[n].inst in Insts(adds);
  }

  lemma NothingRecorded(scope: Inst -> Scope, f: int, adds: seq<Call>)
    ensures Records(LedgerOf(EMPTY, scope, f), adds, [])
  {}

  /** At every point of the run the tables are in step with the calls made so far. */
  lemma {:induction false} RecordsSoFar(
      projects: seq<Project>, calls: seq<Op>, marks: seq<Option<Call>>, scope: Inst -> Scope, f: int, length: nat,
      decls: seq<Decl>, pkg: string, j: nat)
    requires FileNested(decls, 0, length) && IsFileRun(projects, calls, marks, scope, f, FileAdds(decls, pkg))
    requires j <= |calls| && |projects| == |calls| + 1 && HasFile(projects[|calls|], f, length)
    ensures Records(LedgerOf(projects[j], scope, f), FileAdds(decls, pkg), Marked(marks[..j]))
    decreases j
  {
    hide FileNested, FileAdds, Records, IsCallOf, Sound, Apply, Possible, IsRun, DeclaresOnly, IsOrderOf;
    var adds := FileAdds(decls, pkg);
    if j == 0 {
      RunStarts(projects, calls);
      NothingRecorded(scope, f, adds);
    } else {
      RecordsSoFar(projects, calls, marks, scope, f, length, decls, pkg, j - 1);
      EveryRunIsSound(projects, calls, j - 1);
      StepOfRun(projects, calls, j - 1);
      if f in projects[j - 1].files.pathByID {
        FileStays(projects, calls, j - 1, |calls|, f);
      }
      MarkedSoFar(marks, j);
      assert marks[..j][..j - 1] == marks[..j - 1];
      OneStepRecords(projects[j - 1], calls[j - 1], marks[j - 1], scope, f, length, decls, pkg,
                     Marked(marks[..j - 1]), Marked(marks));
    }
  }

  // ------------------------------------------------------------------
  // The object

  /** Instance `k` of the file is the recorded one: its extent, and a symbol of its name. */
  predicate IsInstanceAt(p: Project, f: int, k: int, x: Inst)
    requires IsObject(p.objects, f)
  {
    && 0 <= k < |p.objects[f - 1].insts|
    && var info := p.objects[f - 1].insts[k];
       && info.start == x.start && info.end == x.end && IsSymbol(p.symbols, info.symbolLocalId)
       && p.symbols.list[info.symbolLocalId - 1].name == x.name
  }

  lemma RecordedInstance(p: Project, l: Ledger, x: Inst)
    requires Invariant(p) && IsObject(p.objects, l.file) && l == LedgerOf(p, l.scope, l.file) && IsIn(l, x)
    ensures IsInstanceAt(p, l.file, SlotOf(l, x).idx, x) && SlotOf(l, x).file == l.file
    ensures IsTaken(p.instances, Slot(l.file, SlotOf(l, x).idx))
  {
    hide AllNamed, FilesAgree, ModulesAgree, StatedAgrees, EntriesAgree, LookupAgrees;
    assert KeyAt(p.objects, SlotOf(l, x)) == KeyOf(l, x);
    assert SlotOf(l, x) == Slot(l.file, SlotOf(l, x).idx);
  }

  lemma InstanceHasExtent(p: Project, f: int, k: int, x: Inst)
    requires Invariant(p) && DeclarationsOnly(p) && IsObject(p.objects, f) && IsInstanceAt(p, f, k, x)
    requires IsTaken(p.instances, Slot(f, k))
    ensures FileExtents(p, f)[k] == ExtentOfInst(x) && x.end <= MAX_INT32
  {
    hide Invariant, DeclarationsOnly, IsTaken;
    TakenIsDeclared(p, f, k);
  }

  ghost predicate AllIn(l: Ledger, adds: seq<Call>) {
    forall x | x in Insts(adds) :: IsIn(l, x)
  }

  ghost function PlacesOf(l: Ledger, adds: seq<Call>): (at: map<Inst, int>)
    requires AllIn(l, adds)
  {
    map x | x in Insts(adds) :: SlotOf(l, x).idx
  }

  /** What a taken slot holds is one of the file's own instances, or keeps apart from its literals. */
  lemma TakenIsAccountedFor(p: Project, l: Ledger, adds: seq<Call>, k: nat)
    requires Invariant(p) && DeclarationsOnly(p) && IsObject(p.objects, l.file) && l == LedgerOf(p, l.scope, l.file)
    requires Records(l, adds, adds) && AllIn(l, adds) && k < |p.objects[l.file - 1].insts|
    requires IsTaken(p.instances, Slot(l.file, k))
    ensures (exists x :: StandsAt(PlacesOf(l, adds), x, k)) || IsApart(Insts(adds), FileExtents(p, l.file)[k])
  {
    hide SymbolsAgree, AllNamed, FilesAgree, ModulesAgree, StatedAgrees, EntriesAgree, LookupAgrees, DeclarationsOnly,
      Insts;
    var id :| id in p.instances.slots && p.instances.slots[id] == Slot(l.file, k);
    assert IsRecorded(p.instances, p.objects, p.symbols, p.files.pathByID.Keys, id);
    var key := KeyAt(p.objects, Slot(l.file, k));
    assert IsAccountedFor(l, adds, adds, key);
    if x :| IsKeyOf(l, adds, x, key) {
      assert StandsAt(PlacesOf(l, adds), x, k);
    } else {
      BesideIsApart(adds, FileExtents(p, l.file)[k]);
    }
  }

  lemma BesideIsApart(adds: seq<Call>, e: Extent)
    requires IsBeside(adds, e.start, e.end)
    ensures IsApart(Insts(adds), e)
  {}

  /**
   The length survives its narrowing, or nothing begins with the file's first byte. In Go the
   package clause comes first, so that is so of every file.
   */
  ghost predicate LeavesRoom(adds: seq<Call>, length: nat) {
    LengthFits(length) || forall x | x in Insts(adds) :: x.start > 0
  }

  /** The containers are sorted before everything. */
  lemma WholeIsApart(p: Project, f: int, adds: seq<Call>, k: nat)
    requires Invariant(p) && FileIsShaped(p, f) && IsWhole(p.instances, f, p.objects[f - 1], k)
    requires LeavesRoom(adds, |p.objects[f - 1].content|)
    requires forall x | x in Insts(adds) :: LiesIn(x, 0, |p.objects[f - 1].content|) && x.end <= MAX_INT32
    ensures IsApart(Insts(adds), FileExtents(p, f)[k])
  {
    hide Invariant, FileExtents, Insts, IsShaped, ToInt32;
    WholeHasExtent(p, f, k);
    WholeRank(p, f, k);
    var length := |p.objects[f - 1].content|;
    FittingLengthCovers(length);
    forall x | x in Insts(adds) ensures OutermostFirst(FileExtents(p, f)[k], ExtentOfInst(x)) {
      assert IsPossibleEnd(x.end, length);
    }
  }

  lemma StatedIsOwned(p: Project, l: Ledger, adds: seq<Call>, n: nat, c: int)
    requires Invariant(p) && l == LedgerOf(p, l.scope, l.file) && Records(l, adds, adds) && AllIn(l, adds)
    requires Applies(n, StatedOf(p.instances, l.file, n), c)
    requires forall a | a in adds && a.owner.Some? :: a.owner.value in Insts(adds)
    ensures exists a :: StatesParent(adds, PlacesOf(l, adds), a, c, StatedOf(p.instances, l.file, n)[c])
  {
    hide Invariant, IsIn;
    assert IsOwned(l, adds, Slot(l.file, c));
    var a :| IsStatedFor(l, adds, a, Slot(l.file, c));
    assert StatesParent(adds, PlacesOf(l, adds), a, c, StatedOf(p.instances, l.file, n)[c]);
  }

  lemma OwnedIsStated(p: Project, l: Ledger, adds: seq<Call>, n: nat, a: Call)
    requires Invariant(p) && l == LedgerOf(p, l.scope, l.file) && Records(l, adds, adds) && AllIn(l, adds)
    requires a in adds && a.owner.Some? && a.owner.value in Insts(adds)
    requires forall x | x in Insts(adds) :: 0 <= SlotOf(l, x).idx < n && SlotOf(l, x).file == l.file
    ensures var at, stated := PlacesOf(l, adds), StatedOf(p.instances, l.file, n);
            a.inst in at && Applies(n, stated, at[a.inst]) && StatesParent(adds, at, a, at[a.inst], stated[at[a.inst]])
  {
    hide SymbolsAgree, AllNamed, FilesAgree, ModulesAgree, SlotsAgree, EntriesAgree, LookupAgrees, IsIn, IsTaken;
    assert IsStatedFor(l, adds, a, SlotOf(l, a.inst));
    assert a.inst in Insts(adds);
    assert SlotOf(l, a.inst) == Slot(l.file, SlotOf(l, a.inst).idx);
  }

  /** The tables after the file's calls give the file's object. */
  lemma RecordedIsObject(p: Project, l: Ledger, decls: seq<Decl>, pkg: string, length: nat)
    requires Sound(p) && DeclarationsOnly(p) && HasFile(p, l.file, length) && LeavesRoom(FileAdds(decls, pkg), length)
    requires l == LedgerOf(p, l.scope, l.file) && FileNested(decls, 0, length)
    requires Records(l, FileAdds(decls, pkg), FileAdds(decls, pkg)) && AllIn(l, FileAdds(decls, pkg))
    ensures IsObjectOf(FileAdds(decls, pkg), PlacesOf(l, FileAdds(decls, pkg)), FileExtents(p, l.file),
                       StatedOf(p.instances, l.file, |FileExtents(p, l.file)|))
  {
    hide FileNested, FileAdds, Invariant, DeclarationsOnly, FileExtents, IsTaken, IsIn, Insts, LeavesRoom, StatedOf,
      FileIsShaped, Records, IsApart, StatesParent, IsInstanceAt;
    var adds, n := FileAdds(decls, pkg), |p.objects[l.file - 1].insts|;
    assert FileIsShaped(p, l.file);
    FileInstsLie(decls, pkg, 0, length);
    forall x | x in Insts(adds)
      ensures 0 <= SlotOf(l, x).idx < n && SlotOf(l, x).file == l.file
      ensures FileExtents(p, l.file)[SlotOf(l, x).idx] == ExtentOfInst(x) && x.end <= MAX_INT32
    {
      RecordedInstance(p, l, x);
      InstanceInRange(p, l.file, SlotOf(l, x).idx, x);
      InstanceHasExtent(p, l.file, SlotOf(l, x).idx, x);
    }
    forall k: nat | k < n
      ensures (exists x :: StandsAt(PlacesOf(l, adds), x, k)) || IsApart(Insts(adds), FileExtents(p, l.file)[k])
    {
      if IsTaken(p.instances, Slot(l.file, k)) {
        TakenIsAccountedFor(p, l, adds, k);
      } else {
        WholeIsApart(p, l.file, adds, k);
      }
    }
    forall a | a in adds && a.owner.Some? ensures a.owner.value in Insts(adds) {
      OwnedFollowsName(decls, pkg, 0, length, a);
    }
    forall c | Applies(n, StatedOf(p.instances, l.file, n), c)
      ensures exists a :: StatesParent(adds, PlacesOf(l, adds), a, c, StatedOf(p.instances, l.file, n)[c])
    {
      StatedIsOwned(p, l, adds, n, c);
    }
    forall a | a in adds && a.owner.Some?
      ensures var at, stated := PlacesOf(l, adds), StatedOf(p.instances, l.file, n);
              a.inst in at && Applies(n, stated, at[a.inst])
                && StatesParent(adds, at, a, at[a.inst], stated[at[a.inst]])
    {
      OwnedIsStated(p, l, adds, n, a);
    }
  }

  lemma InstanceInRange(p: Project, f: int, k: int, x: Inst)
    requires IsObject(p.objects, f) && IsInstanceAt(p, f, k, x)
    ensures 0 <= k < |p.objects[f - 1].insts|
  {}

  /**
   After a run in which a well-nested file's calls are made, the object of the file is the one
   of its calls, in every place the instance that the call asked for.
   */
  lemma CallsMakeObject(
      projects: seq<Project>, calls: seq<Op>, marks: seq<Option<Call>>, scope: Inst -> Scope, f: int, length: nat,
      decls: seq<Decl>, pkg: string) returns (at: map<Inst, int>)
    requires FileNested(decls, 0, length) && IsFileRun(projects, calls, marks, scope, f, FileAdds(decls, pkg))
    requires |projects| == |calls| + 1 && HasFile(projects[|calls|], f, length)
    requires LeavesRoom(FileAdds(decls, pkg), length)
    ensures var p := projects[|calls|];
            && IsObjectOf(FileAdds(decls, pkg), at, FileExtents(p, f), StatedOf(p.instances, f, |FileExtents(p, f)|))
            && forall x | x in at :: IsInstanceAt(p, f, at[x], x)
  {
    hide FileNested, FileAdds, Sound, DeclarationsOnly, IsIn, IsRun, DeclaresOnly, LeavesRoom, IsObjectOf, FileExtents,
      IsCallOf, Invariant, Shaped;
    var p, l, adds := projects[|calls|], LedgerOf(projects[|calls|], scope, f), FileAdds(decls, pkg);
    RecordsSoFar(projects, calls, marks, scope, f, length, decls, pkg, |calls|);
    assert marks[..|calls|] == marks;
    SameCalls(Marked(marks), adds);
    RecordsInAnyOrder(l, adds, Marked(marks));
    EveryRunIsSound(projects, calls, |calls|);
    RunDeclaresOnly(projects, calls, |calls|);
    SoundKeeps(p);
    RecordedIsObject(p, l, decls, pkg, length);
    at := PlacesOf(l, adds);
    forall x | x in at ensures IsInstanceAt(p, f, at[x], x) {
      RecordedInstance(p, l, x);
    }
  }

  /**
   In numbers: a literal in a function, or in a name's own initialiser, is a direct child of the
   instance its name extends, unless its calls leave it without an owner inside a local type or
   an interface method; then it is a direct child of that.
   */
  lemma LiteralIsUnderNamesake(
      projects: seq<Project>, calls: seq<Op>, marks: seq<Option<Call>>, scope: Inst -> Scope, f: int, length: nat,
      decls: seq<Decl>, pkg: string, num: seq<Place>, points: seq<Point>, k: nat, j: nat, i: nat, a: Call)
    returns (x: nat, y: nat, p: Inst)
    requires FileNested(decls, 0, length) && IsFileRun(projects, calls, marks, scope, f, FileAdds(decls, pkg))
    requires |projects| == |calls| + 1 && HasFile(projects[|calls|], f, length)
    requires LeavesRoom(FileAdds(decls, pkg), length)
    requires AreObjectNumbers(projects[|calls|], f - 1, num, points)
    requires k < |decls| && (IsFromFunction(decls[k], a) || IsFromName(decls[k], j, i, a))
    requires a in FileAdds(decls, pkg) && a.inst.kind == Literal
    ensures IsInstanceAt(projects[|calls|], f, x, a.inst) && IsInstanceAt(projects[|calls|], f, y, p)
    ensures x < |num| && y < |num| && Holds(num, y, num[x].enter) && num[x].level == num[y].level + 1
    ensures p.kind == MemberKind <==> a.owner.None? && IsInMember(Insts(FileAdds(decls, pkg)), a.inst)
    ensures a.inst.name == LitName(p.name, a.inst.start)
            <==> !(a.owner.None? && IsInOtherMember(Insts(FileAdds(decls, pkg)), a.inst))
    ensures a.owner.Some? ==> p == a.owner.value
  {
    hide FileNested, FileAdds, IsFileRun, LeavesRoom, FileExtents, StatedOf, IsInMember, IsInOtherMember, ChosenParents,
      RankBySymbol, IsFromFunction, IsFromName, AreNumbers, IsInstanceAt;
    var q := projects[|calls|];
    var at := CallsMakeObject(projects, calls, marks, scope, f, length, decls, pkg);
    var s := FileExtents(q, f);
    var stated := StatedOf(q.instances, f, |s|);
    p := LiteralIsInNamesake(decls, pkg, length, at, s, stated, k, j, i, a);
    ObjectInRange(FileAdds(decls, pkg), at, s, stated);
    x, y := at[a.inst], at[p];
    NumbersOfFile(q, f, num, points);
    IntervalsAreTheTree(s, stated, FlagsOf(q.objects[f - 1].insts), TokensOf(q.objects[f - 1].refs), num, points, y, x);
  }

  lemma ObjectInRange(adds: seq<Call>, at: map<Inst, int>, s: seq<Extent>, stated: map<int, int>)
    requires IsObjectOf(adds, at, s, stated)
    ensures at.Keys == Insts(adds) && forall x | x in at :: 0 <= at[x] < |s|
  {
    hide Insts, IsApart, StatesParent;
  }

  lemma NumbersOfFile(p: Project, f: int, num: seq<Place>, points: seq<Point>)
    requires IsObject(p.objects, f) && AreObjectNumbers(p, f - 1, num, points)
    ensures AreNumbers(FileExtents(p, f), StatedOf(p.instances, f, |FileExtents(p, f)|),
                       FlagsOf(p.objects[f - 1].insts),
                       TokensOf(p.objects[f - 1].refs), num, points)
  {
    hide AreNumbers;
  }

  // ------------------------------------------------------------------
  // There are such runs

  /** The next call of the file, as its parser makes it. */
  function CallFor(l: Ledger, a: Call): SymbolCall {
    SymbolCall(1, l.file, a.inst.name, l.scope(a.inst), Function, Definition, a.inst.start, a.inst.end,
               Spans(None, None, None),
               if a.owner.Some? && IsIn(l, a.owner.value) then IdOf(l, a.owner.value) else NO_PARENT)
  }

  /** The first `n` of the calls have been made for file 1 of `length` bytes. */
  ghost predicate IsMadeSoFar(
      projects: seq<Project>, calls: seq<Op>, marks: seq<Option<Call>>, scope: Inst -> Scope, length: nat,
      adds: seq<Call>,
      n: nat)
  {
    && IsRun(projects, calls) && DeclaresOnly(calls) && |marks| == |calls| && |projects| == |calls| + 1
    && n <= |adds| && Marked(marks) == adds[..n]
    && (forall i | 0 <= i < |calls| :: IsCallOf(projects[i], calls[i], marks[i], scope, 1, adds))
    && 1 in projects[|calls|].modules.byID && HasFile(projects[|calls|], 1, length)
  }

  lemma FileAdded(scope: Inst -> Scope, length: nat, adds: seq<Call>)
    returns (projects: seq<Project>, calls: seq<Op>, marks: seq<Option<Call>>)
    ensures IsMadeSoFar(projects, calls, marks, scope, length, adds, 0)
  {
    var content := seq(length, _ => 0);
    projects, calls := ExtendRun([EMPTY], [], CallAddModule("m"));
    hide IsRun;
    projects, calls := ExtendRun(projects, calls, CallAddFile(Some(1), "/a", content, InstanceType.Source));
    marks := [None, None];
    assert marks[..1] == [None] && Marked(marks[..1]) == [];
    assert Marked(marks) == [] == adds[..0];
    assert |calls| == 2 && !calls[0].CallAddSymbol? && !calls[1].CallAddSymbol?;
    assert projects[2].objects[0].content == content;
  }

  lemma AcceptedKeepsFile(p: Project, c: SymbolCall, length: nat)
    requires Accepts(p, c) && HasFile(p, 1, length) && 1 in p.modules.byID
    ensures HasFile(AddSymbol(p, c).project, 1, length) && 1 in AddSymbol(p, c).project.modules.byID
  {
    hide NamedSymbol, WithDeclared, DeclaredInfo, ClampedExtent;
  }

  lemma OneMoreMade(
      projects: seq<Project>, calls: seq<Op>, marks: seq<Option<Call>>, scope: Inst -> Scope, length: nat,
      adds: seq<Call>,
      n: nat) returns (projects': seq<Project>, calls': seq<Op>, marks': seq<Option<Call>>)
    requires IsMadeSoFar(projects, calls, marks, scope, length, adds, n) && n < |adds|
    requires LiesIn(adds[n].inst, 0, length) && length <= MAX_INT32
    ensures IsMadeSoFar(projects', calls', marks', scope, length, adds, n + 1)
  {
    hide IsRun, AddSymbol, IsIn, LedgerOf;
    var p := projects[|calls|];
    var c := CallFor(LedgerOf(p, scope, 1), adds[n]);
    CallForAsks(p, scope, adds[n]);
    AcceptedKeepsFile(p, c, length);
    projects', calls' := ExtendRun(projects, calls, CallAddSymbol(c));
    marks' := marks + [Some(adds[n])];
    assert marks'[..|marks|] == marks;
    assert adds[..n + 1] == adds[..n] + [adds[n]];
    forall i | 0 <= i < |calls'| ensures IsCallOf(projects'[i], calls'[i], marks'[i], scope, 1, adds) {
      if i < |calls| {
        assert IsCallOf(projects[i], calls[i], marks[i], scope, 1, adds);
      }
    }
  }

  lemma CallForAsks(p: Project, scope: Inst -> Scope, a: Call)
    ensures Asks(LedgerOf(p, scope, 1), CallFor(LedgerOf(p, scope, 1), a), a)
    ensures CallFor(LedgerOf(p, scope, 1), a).fileId == 1
  {}

  lemma {:induction false} CallsMade(scope: Inst -> Scope, length: nat, adds: seq<Call>, n: nat)
    returns (projects: seq<Project>, calls: seq<Op>, marks: seq<Option<Call>>)
    requires n <= |adds| && length <= MAX_INT32 && forall x | x in Insts(adds) :: LiesIn(x, 0, length)
    ensures IsMadeSoFar(projects, calls, marks, scope, length, adds, n)
  {
    hide IsMadeSoFar, Insts;
    if n == 0 {
      projects, calls, marks := FileAdded(scope, length, adds);
    } else {
      projects, calls, marks := CallsMade(scope, length, adds, n - 1);
      CallLies(adds, n - 1, length);
      projects, calls, marks := OneMoreMade(projects, calls, marks, scope, length, adds, n - 1);
    }
  }

  /** The calls of every well-nested file within the reach of offsets can all be made, and are accepted. */
  lemma EveryFileCanBeMade(decls: seq<Decl>, pkg: string, scope: Inst -> Scope, length: nat)
    returns (projects: seq<Project>, calls: seq<Op>, marks: seq<Option<Call>>)
    requires FileNested(decls, 0, length) && length <= MAX_INT32
    ensures IsFileRun(projects, calls, marks, scope, 1, FileAdds(decls, pkg))
    ensures |projects| == |calls| + 1 && HasFile(projects[|calls|], 1, length)
  {
    hide FileNested, FileAdds, Insts;
    var adds := FileAdds(decls, pkg);
    FileInstsLie(decls, pkg, 0, length);
    projects, calls, marks := CallsMade(scope, length, adds, |adds|);
    assert adds[..|adds|] == adds;
    FileOwnersFirst(decls, pkg, 0, length);
  }
}
