/** Files whose length does not survive the narrowing to 32 bits, and which of them lose the chain. */
module LongFiles {
  import opened Containment
  import opened Forest
  import opened DerivedTree
  import opened Entities
  import opened Numbering
  import opened Chain
  import opened Store
  import opened StoreInvariant
  import opened Shape
  import opened Runs
  import opened Declarations
  import opened Finalised
  import opened Guarantees
  import opened Stated

  // ------------------------------------------------------------------
  // Extents

  /** The three containers, with nothing said of where the rest ends. */
  ghost predicate HasThree(s: seq<Extent>, m: nat, d: nat, f: nat, length: int) {
    && m < |s| && d < |s| && f < |s|
    && s[m] == Extent(0, length, 0) && s[d] == Extent(0, length, 1) && s[f] == Extent(0, length, 2)
    && forall x: nat | x < |s| && x != m && x != d && x != f :: s[x].rank == 3 && s[x].start >= 0
  }

  /** What contains one container and is none itself contains the outer ones too. */
  lemma ThreeAreInARow(s: seq<Extent>, order: seq<nat>, m: nat, d: nat, f: nat, length: int)
    requires IsOrder(s, order) && HasThree(s, m, d, f, length)
    ensures Derived(s, order)[d] == m && Derived(s, order)[f] == d
  {
    hide IsOrder, Derived;
    NextInARow(s, order, m, d, f, length, d, m);
    NextInARow(s, order, m, d, f, length, f, d);
  }

  lemma NextInARow(s: seq<Extent>, order: seq<nat>, m: nat, d: nat, f: nat, length: int, x: nat, p: nat)
    requires IsOrder(s, order) && HasThree(s, m, d, f, length) && ((x == d && p == m) || (x == f && p == d))
    ensures Derived(s, order)[x] == p
  {
    hide IsOrder, Derived;
    DerivedIsInnermost(s, order, x);
    var up := Derived(s, order)[x];
    assert Contains(s[p], s[x]);
    if up != p {
      assert Contains(s[up], s[p]);
      ContainerComesFirst(s, order, up, p);
    }
  }

  /** Above an instance that ends beyond the containers only such instances stand, up to a root. */
  lemma {:induction false} EscapeHasRoot(
      s: seq<Extent>, order: seq<nat>, m: nat, d: nat, f: nat, length: int, x: nat, k: nat) returns (r: nat)
    requires IsOrder(s, order) && HasThree(s, m, d, f, length) && IsParents(Derived(s, order))
    requires x < |s| && s[x].end > length && Up(Derived(s, order), x, k) == -1
    ensures r < |s| && Derived(s, order)[r] == -1 && r != m && r != d && r != f
    decreases k
  {
    hide IsOrder, Derived;
    DerivedIsInnermost(s, order, x);
    var up := Derived(s, order)[x];
    if up == -1 {
      r := x;
    } else {
      assert Contains(s[up], s[x]);
      r := EscapeHasRoot(s, order, m, d, f, length, up, k - 1);
    }
  }

  /** By ranges alone the containers are the chain exactly when nothing ends beyond them. */
  lemma DerivedChainedIffWithin(s: seq<Extent>, order: seq<nat>, m: nat, d: nat, f: nat, length: int)
    requires IsOrder(s, order) && HasThree(s, m, d, f, length)
    ensures (exists a: nat, b: nat :: a < |s| && b < |s| && IsChained(Derived(s, order), a, b, f))
            <==> forall x: nat | x < |s| :: s[x].end <= length
  {
    hide IsOrder, Derived;
    var up := Derived(s, order);
    DerivedIsForest(s, order);
    ThreeAreInARow(s, order, m, d, f, length);
    if forall x: nat | x < |s| :: s[x].end <= length {
      DerivedIsChained(s, order, m, d, f, length);
    } else {
      var x: nat :| x < |s| && s[x].end > length;
      assert Rooted(up, x);
      var k: nat :| Up(up, x, k) == -1;
      var r := EscapeHasRoot(s, order, m, d, f, length, x, k);
      forall a: nat, b: nat | a < |s| && b < |s| ensures !IsChained(up, a, b, f) {
        assert up[r] == -1 && up[f] == d && up[d] == m;
      }
    }
  }

  /** No instance contains `x`. */
  ghost predicate IsOutermost(s: seq<Extent>, x: nat)
    requires x < |s|
  {
    forall y: nat | y < |s| :: !Contains(s[y], s[x])
  }

  lemma OutermostIsRoot(s: seq<Extent>, order: seq<nat>, x: nat)
    requires IsOrder(s, order) && x < |s|
    ensures Derived(s, order)[x] == -1 <==> IsOutermost(s, x)
  {
    hide Derived;
    DerivedIsInnermost(s, order, x);
  }

  /** All that no range puts inside anything, the module apart, has a stated parent. */
  ghost predicate OutermostHaveParents(s: seq<Extent>, stated: map<int, int>, m: nat) {
    forall x: nat | x < |s| && x != m && IsOutermost(s, x) :: Applies(|s|, stated, x)
  }

  /** What is contained by one of the three is contained by the file, and the file is the closest. */
  lemma NotUnderModule(s: seq<Extent>, order: seq<nat>, m: nat, d: nat, f: nat, length: int, x: nat)
    requires IsOrder(s, order) && HasThree(s, m, d, f, length) && x < |s| && x != m && x != d && x != f
    ensures Derived(s, order)[x] != m && Derived(s, order)[x] != d
  {
    hide IsOrder, Derived;
    DerivedIsInnermost(s, order, x);
    ContainerComesFirst(s, order, m, f);
    ContainerComesFirst(s, order, d, f);
  }

  lemma ChainedHasParents(
      s: seq<Extent>, order: seq<nat>, stated: map<int, int>, m: nat, d: nat, f: nat, length: int, a: nat, b: nat)
    requires IsOrder(s, order) && HasThree(s, m, d, f, length) && StatedAmongRest(|s|, stated, m, d, f)
    requires IsParents(Derived(s, order)) && a < |s| && b < |s|
    requires IsChained(Merged(Derived(s, order), stated), a, b, f)
    ensures OutermostHaveParents(s, stated, m)
  {
    hide IsOrder, Derived, IsOutermost;
    var merged := Merged(Derived(s, order), stated);
    ThreeAreInARow(s, order, m, d, f, length);
    assert !Applies(|s|, stated, d) && !Applies(|s|, stated, f);
    assert merged[f] == d && merged[d] == m;
    assert b == d && a == m;
    forall x: nat | x < |s| && x != m && IsOutermost(s, x) ensures Applies(|s|, stated, x) {
      OutermostIsRoot(s, order, x);
      assert merged[x] != -1;
    }
  }

  lemma ParentsMakeChain(s: seq<Extent>, order: seq<nat>, stated: map<int, int>, m: nat, d: nat, f: nat, length: int)
    requires IsOrder(s, order) && HasThree(s, m, d, f, length) && StatedAmongRest(|s|, stated, m, d, f)
    requires IsParents(Derived(s, order)) && IsForest(Merged(Derived(s, order), stated))
    requires OutermostHaveParents(s, stated, m)
    ensures IsChained(Merged(Derived(s, order), stated), m, d, f)
  {
    hide IsOrder, Derived, IsOutermost;
    var merged := Merged(Derived(s, order), stated);
    ThreeAreInARow(s, order, m, d, f, length);
    assert Rooted(merged, m);
    var k: nat :| Up(merged, m, k) == -1;
    var r := RootAbove(merged, m, k);
    OutermostIsRoot(s, order, r);
    assert r == m;
    forall x: nat | x < |s| && x != m && x != d && x != f
      ensures 0 <= merged[x] < |s| && merged[x] != m && merged[x] != d
    {
      OutermostIsRoot(s, order, x);
      NotUnderModule(s, order, m, d, f, length, x);
    }
  }

  /**
   With parents stated among declarations the chain is there exactly when nothing ends beyond
   the containers, or the stated parents close no cycle and every declaration that nothing
   contains has one.
   */
  lemma ChosenChainedIff(s: seq<Extent>, stated: map<int, int>, m: nat, d: nat, f: nat, length: int)
    requires HasThree(s, m, d, f, length) && StatedAmongRest(|s|, stated, m, d, f)
    ensures (exists a: nat, b: nat :: a < |s| && b < |s| && IsChained(ChosenParents(s, stated), a, b, f))
            <==> || (forall x: nat | x < |s| :: s[x].end <= length)
                 || (IsForest(Hops(s, OrderOf(s), stated)) && OutermostHaveParents(s, stated, m))
  {
    hide IsOrder, Derived, OrderOf, Merged, Hops, IsForest, IsChained, OutermostHaveParents, StatedAmongRest,
      ChosenParents;
    var order := OrderOf(s);
    DerivedIsForest(s, order);
    ChosenIsMerged(s, stated);
    MergedIsForestIffHopsEnd(s, order, stated);
    DerivedChainedIffWithin(s, order, m, d, f, length);
    if forall x: nat | x < |s| :: s[x].end <= length {
      ContainersAreOutermost(s, stated, m, d, f, length);
    } else if IsForest(Merged(Derived(s, order), stated)) {
      if a: nat, b: nat :| a < |s| && b < |s| && IsChained(ChosenParents(s, stated), a, b, f) {
        ChainedHasParents(s, order, stated, m, d, f, length, a, b);
      }
      if OutermostHaveParents(s, stated, m) {
        ParentsMakeChain(s, order, stated, m, d, f, length);
      }
    }
  }

  // ------------------------------------------------------------------
  // Files

  /** The stated parents close no cycle, and every declaration that nothing contains has one. */
  ghost predicate RootsHaveParents(p: Project, f: int)
    requires IsObject(p.objects, f)
  {
    var s := FileExtents(p, f);
    var stated := StatedOf(p.instances, f, |s|);
    && IsForest(Hops(s, OrderOf(s), stated))
    && forall x: nat | x < |s| && IsTaken(p.instances, Slot(f, x)) && IsOutermost(s, x) :: Applies(|s|, stated, x)
  }

  /**
   Exactly when a file with both instances is the chain, whatever parents are stated: nothing
   ends beyond its instance, or stated parents bring in all that does.
   */
  lemma ChainedIffWithin(p: Project, f: int)
    requires Sound(p) && DeclarationsOnly(p) && f in p.files.pathByID && IsObject(p.objects, f)
    requires HasModule(p, f) && HasDirectory(p, f)
    ensures IsChainedFile(p, f) <==> AllEndWithin(p, f) || RootsHaveParents(p, f)
  {
    hide Sound, DeclarationsOnly, FileExtents, IsTaken, HasModule, HasDirectory, ToInt32, StatedOf, OrderOf, Derived,
      IsChained, ChosenParents, Hops, IsForest;
    var s, length := FileExtents(p, f), ToInt32(|p.objects[f - 1].content|);
    var stated := StatedOf(p.instances, f, |s|);
    var m, d := ContainersOf(p, f);
    StatedIsAmongRest(p, f, m, d);
    ChosenChainedIff(s, stated, m, d, 0, length);
    assert IsChainedFile(p, f)
      <==> exists a: nat, b: nat :: a < |s| && b < |s| && IsChained(ChosenParents(s, stated), a, b, 0) by {
      if a: nat, b: nat :| a < |s| && b < |s| && IsChained(ChosenParents(s, stated), a, b, 0) {
        assert IsChainOf(p, f, a, b);
      }
      if IsChainedFile(p, f) {
        var a: nat, b: nat :| IsChainOf(p, f, a, b);
      }
    }
    AllWithinIff(p, f, m, d);
    RootsAre(p, f, m, d);
  }

  lemma StatedIsAmongRest(p: Project, f: int, m: nat, d: nat)
    requires Sound(p) && IsObject(p.objects, f) && AreContainers(p, f, m, d)
    ensures StatedAmongRest(|FileExtents(p, f)|, StatedOf(p.instances, f, |FileExtents(p, f)|), m, d, 0)
  {
    hide IsTaken, FileExtents, ToInt32;
    StatedStaysAmongTaken(p, f, p.objects[f - 1], m, d);
  }

  lemma AllWithinIff(p: Project, f: int, m: nat, d: nat)
    requires IsObject(p.objects, f) && AreContainers(p, f, m, d)
    ensures AllEndWithin(p, f)
            <==> forall x: nat | x < |FileExtents(p, f)| ::
                   FileExtents(p, f)[x].end <= ToInt32(|p.objects[f - 1].content|)
  {
    hide IsTaken, FileExtents, ToInt32;
    if AllEndWithin(p, f) {
      forall x: nat | x < |FileExtents(p, f)|
        ensures FileExtents(p, f)[x].end <= ToInt32(|p.objects[f - 1].content|)
      {
        assert IsTaken(p.instances, Slot(f, x)) <==> x != m && x != d && x != 0;
      }
    }
  }

  lemma RootsAre(p: Project, f: int, m: nat, d: nat)
    requires IsObject(p.objects, f) && AreContainers(p, f, m, d)
    ensures var s := FileExtents(p, f);
            var stated := StatedOf(p.instances, f, |s|);
            RootsHaveParents(p, f) <==> IsForest(Hops(s, OrderOf(s), stated)) && OutermostHaveParents(s, stated, m)
  {
    hide IsTaken, FileExtents, ToInt32, StatedOf, OrderOf, Hops, IsForest, IsOutermost;
    var s := FileExtents(p, f);
    ThreeAreNotOutermost(s, m, d, 0, ToInt32(|p.objects[f - 1].content|));
    forall x: nat | x < |s|
      ensures IsTaken(p.instances, Slot(f, x)) && IsOutermost(s, x) <==> x != m && IsOutermost(s, x)
    {
      assert IsTaken(p.instances, Slot(f, x)) <==> x != m && x != d && x != 0;
    }
  }

  lemma ThreeAreNotOutermost(s: seq<Extent>, m: nat, d: nat, f: nat, length: int)
    requires HasThree(s, m, d, f, length)
    ensures !IsOutermost(s, d) && !IsOutermost(s, f)
  {
    assert Contains(s[m], s[d]) && Contains(s[m], s[f]);
  }

  /** With nothing stated that is when nothing in the file ends beyond its instance. */
  lemma UnstatedChainedIffWithin(p: Project, f: int)
    requires Sound(p) && DeclarationsOnly(p) && f in p.files.pathByID && IsObject(p.objects, f)
    requires HasModule(p, f) && HasDirectory(p, f)
    requires NothingStated(|p.objects[f - 1].insts|, StatedOf(p.instances, f, |p.objects[f - 1].insts|))
    ensures IsChainedFile(p, f) <==> AllEndWithin(p, f)
  {
    hide Sound, DeclarationsOnly, FileExtents, IsTaken, HasModule, HasDirectory, ToInt32, StatedOf, OrderOf, Derived,
      IsChained, NothingStated, ChosenParents;
    var s, length := FileExtents(p, f), ToInt32(|p.objects[f - 1].content|);
    var m, d := ContainersOf(p, f);
    NothingStatedIsDerived(s, StatedOf(p.instances, f, |s|));
    DerivedChainedIffWithin(s, OrderOf(s), m, d, 0, length);
    if IsChainedFile(p, f) {
      var a: nat, b: nat :| IsChainOf(p, f, a, b);
      assert forall x: nat | x < |s| :: s[x].end <= length;
    }
    if AllEndWithin(p, f) {
      forall x: nat | x < |s| ensures s[x].end <= length {
        assert IsTaken(p.instances, Slot(f, x)) <==> x != m && x != d && x != 0;
      }
      var a: nat, b: nat :| a < |s| && b < |s| && IsChained(Derived(s, OrderOf(s)), a, b, 0);
      assert IsChainOf(p, f, a, b);
    }
  }

  // ------------------------------------------------------------------
  // Runs

  /** A run of declarations up to a Marshal, with a file of that length that was added in time. */
  ghost predicate IsTimelyRun(projects: seq<Project>, calls: seq<Op>, i: nat, f: int, length: nat) {
    && IsRun(projects, calls) && IsMarshalled(calls) && DeclaresOnly(calls)
    && i < |calls| && AddsFile(projects[i], calls[i], f) && |calls[i].content| == length
    && IsModuleInTime(projects[i], calls[i]) && !projects[i].directoriesCreated
  }

  /** The file is there in the end, as the chain. */
  ghost predicate EndsChained(projects: seq<Project>, f: int) {
    |projects| > 0 && IsObject(projects[|projects| - 1].objects, f) && IsChainedFile(projects[|projects| - 1], f)
  }

  lemma TimelyRunEnds(projects: seq<Project>, calls: seq<Op>, i: nat, f: int, length: nat)
    requires IsTimelyRun(projects, calls, i, f, length)
    ensures |projects| > 0
    ensures var q := projects[|projects| - 1];
            && Sound(q) && DeclarationsOnly(q) && f in q.files.pathByID && IsObject(q.objects, f)
            && |q.objects[f - 1].content| == length && HasModule(q, f) && HasDirectory(q, f)
  {
    hide Sound, DeclarationsOnly, DeclaresOnly, HasModule, HasDirectory;
    ContainersComeInTime(projects, calls, i, f);
    RunDeclaresOnly(projects, calls, |calls|);
  }

  /** The lengths for which every file added in time ends up as the chain are those that survive the narrowing. */
  lemma LengthFitsIffChained(length: nat)
    ensures LengthFits(length)
            <==> forall projects, calls, i, f | IsTimelyRun(projects, calls, i, f, length) :: EndsChained(projects, f)
  {
    hide IsTimelyRun, Sound, DeclarationsOnly, HasModule, HasDirectory, LengthFits, IsChainedFile;
    if LengthFits(length) {
      forall projects, calls, i, f | IsTimelyRun(projects, calls, i, f, length) ensures EndsChained(projects, f) {
        TimelyRunEnds(projects, calls, i, f, length);
        ChainedIffContainers(projects[|projects| - 1], f);
      }
    } else {
      var projects, calls := LongRun(length);
    }
  }

  const LONG_CALL: SymbolCall :=
    SymbolCall(1, 1, "x", Global, Function, Definition, 0, MAX_INT32, Spans(None, None, None), NO_PARENT)

  /** A file with one declaration over all of it that an offset can reach. */
  lemma LongProject(length: nat) returns (projects: seq<Project>, calls: seq<Op>)
    requires length >= MAX_INT32
    ensures IsRun(projects, calls) && |projects| == 4 && |calls| == 3 && DeclaresOnly(calls)
    ensures AddsFile(projects[1], calls[1], 1)
    ensures |calls[1].content| == length && IsModuleInTime(projects[1], calls[1]) && !projects[1].directoriesCreated
    ensures var p := projects[3];
            p.instances.stated == map[] && InstanceKey(2, 1, 0, MAX_INT32) in p.instances.idByKey
  {
    projects, calls := [EMPTY], [];
    projects, calls := ExtendRun(projects, calls, CallAddModule("m"));
    hide IsRun;
    var content := seq(length, _ => 0);
    var add := CallAddFile(Some(1), "/a", content, InstanceType.Source);
    projects, calls := ExtendRun(projects, calls, add);
    projects, calls := ExtendRun(projects, calls, CallAddSymbol(LONG_CALL));
    assert projects[2] == Apply(projects[1], add);
    assert projects[2].objects[0].content == content;
  }

  lemma LongRun(length: nat) returns (projects: seq<Project>, calls: seq<Op>)
    requires !LengthFits(length)
    ensures IsTimelyRun(projects, calls, 1, 1, length) && !EndsChained(projects, 1)
  {
    hide IsRun, Apply, Sound, DeclarationsOnly, HasModule, HasDirectory, IsChainedFile, AllEndWithin, AddsFile,
      IsModuleInTime;
    projects, calls := LongProject(length);
    var p := projects[3];
    var op := SomeMarshal(p);
    projects, calls := ExtendRun(projects, calls, op);
    assert |projects| == 5 && projects[4] == Apply(p, op);
    OthersDeclareNothing(p, op);
    TimelyRunEnds(projects, calls, 1, 1, length);
    EscapesFile(projects[4], length);
    NothingIsStated(projects[4]);
    UnstatedChainedIffWithin(projects[4], 1);
  }

  lemma NothingIsStated(p: Project)
    requires p.instances.stated == map[] && IsObject(p.objects, 1)
    ensures NothingStated(|p.objects[0].insts|, StatedOf(p.instances, 1, |p.objects[0].insts|))
  {}

  lemma EscapesFile(p: Project, length: nat)
    requires Sound(p) && IsObject(p.objects, 1) && |p.objects[0].content| == length && !LengthFits(length)
    requires InstanceKey(2, 1, 0, MAX_INT32) in p.instances.idByKey
    ensures !AllEndWithin(p, 1)
  {
    hide Shaped, SymbolsAgree, AllNamed, FilesAgree, ModulesAgree, StatedAgrees, EntriesAgree, LookupAgrees;
    var id := p.instances.idByKey[InstanceKey(2, 1, 0, MAX_INT32)];
    var slot := p.instances.slots[id];
    assert IsTaken(p.instances, Slot(1, slot.idx));
    assert FileExtents(p, 1)[slot.idx].end == MAX_INT32;
  }
}
