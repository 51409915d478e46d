/** Runs of calls after which the numbers are not what a comment or a check of the original expects. */
module Witnesses {
  import opened StableOrder
  import opened Containment
  import opened Forest
  import opened Entities
  import opened Numbering
  import opened DerivedTree
  import opened Stated
  import opened Guarantees
  import opened Store
  import opened StoreInvariant
  import opened Shape
  import opened ShapeSteps
  import opened Directories
  import opened Runs
  import opened Declarations
  import opened Wholes
  import opened Finalised
  import opened Determined
  import opened Reachable

  /** After the run, `c` does not enclose `x` in the numbers of file 1, whichever they are. */
  ghost predicate DoesNotEnclose(p: Project, c: nat, x: nat) {
    && IsObject(p.objects, 1) && c < |p.objects[0].insts| && x < |p.objects[0].insts|
    && forall num: seq<Place>, points | AreObjectNumbers(p, 0, num, points) ::
         |num| > c && |num| > x && !Holds(num, c, num[x].enter)
  }

  lemma NotAnAncestor(p: Project, w: seq<Wanted>, length: nat, c: nat, x: nat)
    requires IsFileOf(p, w, length) && c < |w| + 3 && x < |w| + 3
    requires !Ancestor(ChosenParents(WantedExtents(w, length), WantedParents(w)), c, x)
    ensures DoesNotEnclose(p, c, x)
  {
    hide ChosenParents, AreNumbers, RankBySymbol, WantedExtents, WantedParents, StatedOf;
    forall num: seq<Place>, points | AreObjectNumbers(p, 0, num, points)
      ensures |num| > c && |num| > x && !Holds(num, c, num[x].enter)
    {
      IntervalsAreTheTree(FileExtents(p, 1), StatedOf(p.instances, 1, |w| + 3), FlagsOf(p.objects[0].insts),
                          TokensOf(p.objects[0].refs), num, points, c, x);
    }
  }

  // ------------------------------------------------------------------
  // A cycle

  /** [10, 20), and then [0, 100) with the first as its parent. */
  const CYCLE: seq<Wanted> := [Wanted(10, 20, None), Wanted(0, 100, Some(0))]

  lemma CycleIsNoForest()
    ensures var s, stated := WantedExtents(CYCLE, 100), WantedParents(CYCLE);
            && Applies(|s|, stated, 2) && stated[2] == 1 && IsParents(Derived(s, OrderOf(s)))
            && !IsForest(Merged(Derived(s, OrderOf(s)), stated)) && !Ancestor(ChosenParents(s, stated), 1, 2)
  {
    hide WantedExtents, WantedParents, OrderOf, Derived, IsForest, Merged, ChosenParents, ContainersNest;
    var s, stated := WantedExtents(CYCLE, 100), WantedParents(CYCLE);
    var order := OrderOf(s);
    CycleIs();
    DerivedIsForest(s, order);
    forall y: nat | y < 5 && Contains(s[y], s[1]) && y != 2 ensures Pos(order, y) < Pos(order, 2) {
      ContainerComesFirst(s, order, y, 2);
    }
    NestsWithoutCloser(s, order, 2, 1);
    DerivedAncestorIffContainersNest(s, order, 2, 1);
    DerivedAncestorIsRun(s, order, 2, 1);
    OneStatedIsHonoured(s, order, 2, 1);
    CyclesFallBack(s, stated);
    if Ancestor(Derived(s, order), 1, 2) {
      DerivedAncestorContains(s, order, 1, 2);
    }
  }

  lemma NestsWithoutCloser(s: seq<Extent>, order: seq<nat>, c: nat, x: nat)
    requires IsOrder(s, order) && c < |s| && x < |s| && Contains(s[c], s[x])
    requires forall y: nat | y < |s| && Contains(s[y], s[x]) && y != c :: Pos(order, y) < Pos(order, c)
    ensures ContainersNest(s, order, c, x)
  {}

  lemma CycleIs()
    ensures var s, stated := WantedExtents(CYCLE, 100), WantedParents(CYCLE);
            && s == [Extent(0, 100, 2), Extent(10, 20, 3), Extent(0, 100, 3), Extent(0, 100, 0), Extent(0, 100, 1)]
            && stated == map[2 := 1]
  {
    assert HasParent(CYCLE, 2);
  }

  /** The comment that no cycle can be stated fails for a caller: the stated parent is accepted, and not honoured. */
  lemma CycleRun() returns (projects: seq<Project>, calls: seq<Op>)
    ensures IsRun(projects, calls) && IsMarshalled(calls) && |projects| == |calls| + 1
    ensures var q := projects[|calls|];
            && IsFileOf(q, CYCLE, 100) && Slot(1, 2) in q.instances.stated && q.instances.stated[Slot(1, 2)] == 1
            && DoesNotEnclose(q, 1, 2)
  {
    hide IsRun, WantedExtents, ChosenParents, OrderOf, Derived, DoesNotEnclose;
    projects, calls := EveryObjectCanBeMade(CYCLE, 100);
    CycleIsNoForest();
    assert 2 in WantedParents(CYCLE) && 2 in StatedOf(projects[|calls|].instances, 1, 5);
    NotAnAncestor(projects[|calls|], CYCLE, 100, 1, 2);
  }

  // ------------------------------------------------------------------
  // A container that encloses nothing

  /** Two declarations over the same bytes, and one inside both. */
  const SIBLINGS: seq<Wanted> := [Wanted(0, 10, None), Wanted(0, 10, None), Wanted(2, 4, None)]

  lemma SiblingsAre()
    ensures var s, stated := WantedExtents(SIBLINGS, 20), WantedParents(SIBLINGS);
            && s == [Extent(0, 20, 2), Extent(0, 10, 3), Extent(0, 10, 3), Extent(2, 4, 3),
                     Extent(0, 20, 0), Extent(0, 20, 1)]
            && stated == map[]
  {
    assert forall k :: !HasParent(SIBLINGS, k);
  }

  lemma FirstSiblingHasNoChild()
    ensures var s := WantedExtents(SIBLINGS, 20);
            Contains(s[1], s[3]) && !Ancestor(ChosenParents(s, WantedParents(SIBLINGS)), 1, 3)
  {
    hide WantedExtents, WantedParents, OrderOf, Derived, ChosenParents;
    var s := WantedExtents(SIBLINGS, 20);
    var order := OrderOf(s);
    SiblingsAre();
    NothingStatedIsDerived(s, WantedParents(SIBLINGS));
    SortLessIsStrictWeak(s);
    PosIsBefore(|s|, SortLess(s), order, 1, 2);
    assert Contains(s[2], s[3]) && !Contains(s[1], s[2]);
    DerivedAncestorIffContainersNest(s, order, 1, 3);
  }

  /** The check that a strictly wider range encloses in numbers too fails for a caller, with nothing stated. */
  lemma SiblingsRun() returns (projects: seq<Project>, calls: seq<Op>)
    ensures IsRun(projects, calls) && IsMarshalled(calls) && |projects| == |calls| + 1
    ensures var q := projects[|calls|];
            && IsFileOf(q, SIBLINGS, 20) && Contains(FileExtents(q, 1)[1], FileExtents(q, 1)[3])
            && DoesNotEnclose(q, 1, 3)
  {
    hide IsRun, WantedExtents, ChosenParents, DoesNotEnclose;
    projects, calls := EveryObjectCanBeMade(SIBLINGS, 20);
    FirstSiblingHasNoChild();
    NotAnAncestor(projects[|calls|], SIBLINGS, 20, 1, 3);
  }

  // ------------------------------------------------------------------
  // A stated parent elsewhere

  /** Well-nested, with a parent stated for [12, 14) that is not around it. */
  const ELSEWHERE: seq<Wanted> := [Wanted(0, 5, None), Wanted(10, 20, None), Wanted(12, 14, Some(0))]

  lemma ElsewhereIs()
    ensures var s, stated := WantedExtents(ELSEWHERE, 100), WantedParents(ELSEWHERE);
            && s == [Extent(0, 100, 2), Extent(0, 5, 3), Extent(10, 20, 3), Extent(12, 14, 3),
                     Extent(0, 100, 0), Extent(0, 100, 1)]
            && stated == map[3 := 1]
  {
    assert HasParent(ELSEWHERE, 3);
  }

  lemma ElsewhereTakesAway()
    ensures var s := WantedExtents(ELSEWHERE, 100);
            && IsLaminar(s) && ContainersNest(s, OrderOf(s), 2, 3)
            && !Ancestor(ChosenParents(s, WantedParents(ELSEWHERE)), 2, 3)
  {
    hide WantedExtents, WantedParents, OrderOf, Derived, Merged, ChosenParents, ContainersNest, IsForest;
    var s, stated := WantedExtents(ELSEWHERE, 100), WantedParents(ELSEWHERE);
    var order := OrderOf(s);
    ElsewhereIs();
    DerivedIsForest(s, order);
    LaminarAncestorIsContainer(s, order, 2, 3);
    DerivedAncestorIffContainersNest(s, order, 2, 3);
    DerivedAncestorIsRun(s, order, 2, 3);
    forall c: nat, d: nat | Applies(6, stated, c) && Applies(6, stated, d)
      ensures !AncestorOrSelf(Derived(s, order), c, stated[d])
    {
      LaminarAncestorIsContainer(s, order, 3, 1);
    }
    SeparateStatedAreHonoured(s, order, stated);
    ChosenIsMerged(s, stated);
    if Ancestor(ChosenParents(s, stated), 2, 3) {
      MergedAncestorIsOnWayUp(s, order, stated, 2, 3);
      var k: nat :| IsOnWayUp(s, order, stated, 2, 3, k);
      NotOnWayUp(k);
    }
  }

  /** From [12, 14) the way leads to [0, 5) at once and nowhere after that. */
  lemma NotOnWayUp(k: nat)
    ensures var s := WantedExtents(ELSEWHERE, 100);
            !IsOnWayUp(s, OrderOf(s), WantedParents(ELSEWHERE), 2, 3, k)
  {
    hide WantedExtents, WantedParents, OrderOf, Derived;
    var s, stated := WantedExtents(ELSEWHERE, 100), WantedParents(ELSEWHERE);
    var order := OrderOf(s);
    ElsewhereIs();
    DerivedIsForest(s, order);
    ContainerComesFirst(s, order, 2, 3);
    assert FirstStated(s, order, stated, 3) == 3;
    FirstStatedIsAbove(s, order, stated, 1);
    LaminarAncestorIsContainer(s, order, 3, 1);
    assert FirstStated(s, order, stated, 1) == -1;
    assert Landing(s, order, stated, 1, if k == 0 then 0 else k - 1) <= 1;
  }

  /** With parents stated not even well-nested ranges do: the closest container encloses nothing. */
  lemma ElsewhereRun() returns (projects: seq<Project>, calls: seq<Op>)
    ensures IsRun(projects, calls) && IsMarshalled(calls) && |projects| == |calls| + 1
    ensures var q := projects[|calls|];
            && IsFileOf(q, ELSEWHERE, 100) && DoesNotEnclose(q, 2, 3)
            && var s := FileExtents(q, 1); IsLaminar(s) && ContainersNest(s, OrderOf(s), 2, 3)
  {
    hide IsRun, WantedExtents, ChosenParents, DoesNotEnclose, IsLaminar, ContainersNest, OrderOf;
    projects, calls := EveryObjectCanBeMade(ELSEWHERE, 100);
    ElsewhereTakesAway();
    NotAnAncestor(projects[|calls|], ELSEWHERE, 100, 2, 3);
  }

  // ------------------------------------------------------------------
  // A file that comes late

  function AddingFile(path: string): Op {
    CallAddFile(Some(1), path, [0, 0, 0, 0], InstanceType.Source)
  }

  /** A marshalled project with one file, whose module has its symbol and whose directories have theirs. */
  ghost predicate IsFinished(p: Project) {
    && p.files.idByPath.Keys == {"/a"} && 1 in p.modules.byID && p.modules.byID[1].symbolID != 0 && p.directoriesCreated
  }

  lemma FirstFileAdded() returns (projects: seq<Project>, calls: seq<Op>)
    ensures IsRun(projects, calls) && |projects| == 3 && calls == [CallAddModule("m"), AddingFile("/a")]
    ensures var p := projects[2];
            && p.files.idByPath == map["/a" := 1] && 1 in p.files.pathByID && p.modules.byID.Keys == {1}
            && p.modules.ofFile == map[1 := 1]
  {
    projects, calls := ExtendRun([EMPTY], [], CallAddModule("m"));
    hide IsRun;
    projects, calls := ExtendRun(projects, calls, AddingFile("/a"));
  }

  lemma MarshalFinishes(p: Project, op: Op)
    requires Sound(p) && op.CallMarshal? && Possible(p, op)
    requires p.files.idByPath == map["/a" := 1] && 1 in p.files.pathByID && p.modules.byID.Keys == {1}
    requires p.modules.ofFile == map[1 := 1]
    ensures IsFinished(Apply(p, op))
  {
    hide Sound, HasModule, HasDirectory, WithDirectories, ResolveImports, CreateEachModule, Ranges;
    StepIsExact(p, op, 1);
    CreateEachModuleFiles(p, op.modules);
  }

  /** A second file added after a Marshal gets neither instance from the next one, and is no chain. */
  lemma LateRun() returns (projects: seq<Project>, calls: seq<Op>, f: int)
    ensures IsRun(projects, calls) && IsMarshalled(calls) && DeclaresOnly(calls) && |projects| == 6 && |calls| == 5
    ensures AddsFile(projects[3], calls[3], f) && calls[3] == AddingFile("/b") && LengthFits(|calls[3].content|)
    ensures !IsModuleInTime(projects[3], calls[3]) && projects[3].directoriesCreated
    ensures IsObject(projects[5].objects, f) && !HasModule(projects[5], f) && !HasDirectory(projects[5], f)
    ensures !IsChainedFile(projects[5], f)
  {
    projects, calls := FirstFileAdded();
    hide IsRun, Sound, Apply, Possible, HasModule, HasDirectory, IsChainedFile;
    EveryRunIsSound(projects, calls, 2);
    var first := SomeMarshal(projects[2]);
    MarshalFinishes(projects[2], first);
    projects, calls := ExtendRun(projects, calls, first);
    assert IsFinished(projects[3]);
    f := |projects[3].objects| + 1;
    AddFilePossible(projects[3], AddingFile("/b"));
    projects, calls := ExtendRun(projects, calls, AddingFile("/b"));
    var second := SomeMarshal(projects[4]);
    projects, calls := ExtendRun(projects, calls, second);
    ContainersComeInTime(projects, calls, 3, f);
    RunDeclaresOnly(projects, calls, 5);
    ChainedIffContainers(projects[5], f);
  }

  lemma AddFilePossible(p: Project, op: Op)
    requires op.CallAddFile?
    ensures Possible(p, op)
  {}
}
