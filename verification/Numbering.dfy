/** Numbering one object: sort, derive parents, merge the stated ones, walk, place references. */
module Numbering {
  import opened Collections
  import opened StableOrder
  import opened Containment
  import opened Forest
  import opened Counting
  import opened Sweep
  import opened DerivedTree
  import opened WalkProof
  import opened Walk
  import opened References
  import opened Entities

  /** Rank of an instance whose symbol is not known. */
  const DEFAULT_RANK: nat := 3

  function RankOf(info: InstanceInfo, rankBySymbol: map<int, nat>): nat {
    if info.symbolLocalId in rankBySymbol then rankBySymbol[info.symbolLocalId] else DEFAULT_RANK
  }

  function ExtentOf(info: InstanceInfo, rankBySymbol: map<int, nat>): Extent {
    Extent(info.start, info.end, RankOf(info, rankBySymbol))
  }

  function Infos(insts: seq<SymbolInstance>): (infos: seq<InstanceInfo>)
    ensures |infos| == |insts|
  {
    seq(|insts|, k requires 0 <= k < |insts| => insts[k].info)
  }

  function Extents(infos: seq<InstanceInfo>, rankBySymbol: map<int, nat>): (s: seq<Extent>)
    ensures |s| == |infos|
  {
    seq(|infos|, k requires 0 <= k < |infos| => ExtentOf(infos[k], rankBySymbol))
  }

  // ------------------------------------------------------------------
  // The parent array finally used

  /** A stated entry that is used at all: both ends in range and different. */
  predicate Applies(n: nat, stated: map<int, int>, child: int) {
    child in stated && 0 <= child < n && 0 <= stated[child] < n && stated[child] != child
  }

  /** Stated parents replace derived ones. */
  ghost function Merged(derived: seq<int>, stated: map<int, int>): (parent: seq<int>)
    requires IsParents(derived)
    ensures |parent| == |derived| && IsParents(parent)
  {
    seq(|derived|, k requires 0 <= k < |derived| => if Applies(|derived|, stated, k) then stated[k] else derived[k])
  }

  /** Stated parentage when the whole is a forest, ranges alone otherwise. */
  ghost function ChosenParents(s: seq<Extent>, stated: map<int, int>): (parent: seq<int>)
    ensures |parent| == |s| && IsParents(parent) && IsForest(parent)
  {
    var derived := Derived(s, OrderOf(s));
    DerivedIsForest(s, OrderOf(s));
    var merged := Merged(derived, stated);
    if IsForest(merged) then merged else derived
  }

  ghost predicate IsFirstRoot(parent: seq<int>, order: seq<nat>, r: nat)
    requires IsParents(parent) && forall x: nat | x < |parent| :: x in order
  {
    && r < |parent| && parent[r] == -1
    && forall y: nat | y < |parent| && parent[y] == -1 :: Pos(order, r) <= Pos(order, y)
  }

  /** `num` and `points` are the numbers of instances with these extents and references with these ranges. */
  ghost predicate AreNumbers(
      s: seq<Extent>, stated: map<int, int>, folded: seq<bool>, ranges: seq<Range>, num: seq<Place>, points: seq<Point>)
    requires |s| == |folded|
  {
    var order := OrderOf(s);
    var parent := ChosenParents(s, stated);
    && |points| == |ranges| && IsNumbering(parent, order, folded, num)
    && exists root: nat ::
         && IsFirstRoot(parent, order, root)
         && forall k | 0 <= k < |ranges| :: IsPointOf(s, order, root, num, folded, ranges[k], points[k])
  }

  /** What a numbered object looks like, given the extents of its instances. */
  ghost predicate IsNumbered(s: seq<Extent>, stated: map<int, int>, insts: seq<SymbolInstance>, refs: seq<SymbolRef>)
    requires |s| == |insts|
    reads insts, refs
  {
    AreNumbers(s, stated, FoldedFlags(insts), RangesOf(refs), Places(insts), Points(refs))
  }

  lemma FirstRootIsUnique(parent: seq<int>, order: seq<nat>, a: nat, b: nat)
    requires IsParents(parent) && forall x: nat | x < |parent| :: x in order
    requires IsFirstRoot(parent, order, a) && IsFirstRoot(parent, order, b)
    ensures a == b
  {
    assert order[Pos(order, a)] == a && order[Pos(order, b)] == b;
  }

  lemma PointIsUnique(
      s: seq<Extent>, order: seq<nat>, root: nat, num: seq<Place>, folded: seq<bool>, r: Range, a: Point, b: Point)
    requires IsOrder(s, order) && |num| == |folded| == |s|
    requires IsPointOf(s, order, root, num, folded, r, a) && IsPointOf(s, order, root, num, folded, r, b)
    ensures a == b
  {
    hide LastCovering, IsOrder;
  }

  /** Nothing but ranges, kinds, folded flags and stated parents decides the numbers. */
  lemma NumbersAreDetermined(
      s: seq<Extent>, stated: map<int, int>, folded: seq<bool>, ranges: seq<Range>,
      num: seq<Place>, points: seq<Point>, num': seq<Place>, points': seq<Point>)
    requires |s| == |folded|
    requires AreNumbers(s, stated, folded, ranges, num, points) && AreNumbers(s, stated, folded, ranges, num', points')
    ensures num == num' && points == points'
  {
    hide IsFirstRoot, IsPointOf, ChosenParents, OrderOf, IsTimeline, IsForest;
    var order := OrderOf(s);
    var parent := ChosenParents(s, stated);
    NumberingIsUnique(parent, order, folded, num, num');
    var a: nat :| IsFirstRoot(parent, order, a)
                  && forall k | 0 <= k < |ranges| :: IsPointOf(s, order, a, num, folded, ranges[k], points[k]);
    var b: nat :| IsFirstRoot(parent, order, b)
                  && forall k | 0 <= k < |ranges| :: IsPointOf(s, order, b, num', folded, ranges[k], points'[k]);
    FirstRootIsUnique(parent, order, a, b);
    forall k | 0 <= k < |ranges| ensures points[k] == points'[k] {
      PointIsUnique(s, order, a, num, folded, ranges[k], points[k], points'[k]);
    }
  }

  class Object {
    const localId: int
    const path: string
    const content: seq<int>
    var symbolInstances: seq<SymbolInstance>
    var refs: seq<SymbolRef>

    constructor (localId: int, path: string, content: seq<int>)
      ensures this.localId == localId && this.path == path && this.content == content
      ensures symbolInstances == [] && refs == []
    {
      this.localId, this.path, this.content := localId, path, content;
      symbolInstances, refs := [], [];
    }
  }

  /** Applies every stated parent that is in range. */
  method MergeStated(derived: array<int>, stated: map<int, int>) returns (parent: array<int>)
    requires IsParents(derived[..])
    ensures fresh(parent) && parent[..] == Merged(derived[..], stated)
  {
    var n := derived.Length;
    parent := new int[n](i requires 0 <= i < n reads derived => derived[i]);
    var left := stated.Keys;
    while left != {}
      invariant left <= stated.Keys
      invariant forall k | 0 <= k < n ::
                  parent[k] == if Applies(n, stated, k) && k !in left then stated[k] else derived[k]
    {
      ghost var some := ElementOf(left);
      var child :| child in left;
      left := left - {child};
      var p := stated[child];
      if child >= 0 && child < n && p >= 0 && p < n && p != child {
        parent[child] := p;
      }
    }
    assert parent[..] == Merged(derived[..], stated);
  }

  method ClearFields(insts: seq<SymbolInstance>)
    modifies insts
  {
    for k := 0 to |insts| {
      insts[k].dfsEnter, insts[k].dfsExit := 0, 0;
      insts[k].nestingLevel, insts[k].foldDepth := 0, 0;
    }
  }

  lemma FirstOfRoots(parent: seq<int>, order: seq<nat>, roots: seq<nat>)
    requires IsParents(parent) && IsForest(parent) && |parent| > 0 && forall x: nat | x < |parent| :: x in order
    requires IsChildList(parent, order, -1, roots)
    ensures |roots| > 0 && IsFirstRoot(parent, order, roots[0])
  {
    assert Rooted(parent, 0);
    var k: nat :| Up(parent, 0, k) == -1;
    var r := RootAbove(parent, 0, k);
    assert r in roots;
    forall y: nat | y < |parent| && parent[y] == -1 ensures Pos(order, roots[0]) <= Pos(order, y) {
      assert y in roots;
      var i :| 0 <= i < |roots| && roots[i] == y;
      assert i > 0 ==> Pos(order, roots[0]) < Pos(order, roots[i]);
    }
  }

  lemma {:induction false} RootAbove(parent: seq<int>, y: nat, k: nat) returns (r: nat)
    requires IsParents(parent) && y < |parent| && Up(parent, y, k) == -1
    ensures r < |parent| && parent[r] == -1
    decreases k
  {
    if parent[y] == -1 {
      r := y;
    } else {
      r := RootAbove(parent, parent[y], k - 1);
    }
  }

  /** Child lists of one parent array, and the walk over them. */
  method NumberBy(insts: seq<SymbolInstance>, parent: array<int>, s: seq<Extent>, order: seq<nat>)
    returns (numbered: nat, roots: seq<nat>)
    requires Distinct(insts) && |insts| == |s| == parent.Length && IsOrder(s, order) && IsParents(parent[..])
    modifies insts
    ensures numbered == |insts| <==> IsForest(parent[..])
    ensures IsForest(parent[..]) ==> IsNumbering(parent[..], order, FoldedFlags(insts), Places(insts))
    ensures IsChildList(parent[..], order, -1, roots)
  {
    forall i | 0 <= i < |s| ensures Pos(order, order[i]) == i {
      PosOfElement(s, order, i);
    }
    var kids;
    kids, roots := ChildLists(parent, |insts|, order);
    numbered := NumberForest(insts, kids, roots, parent[..], order);
  }

  /** Walks by the stated parents, or by the ranges alone when those do not form a forest. */
  method NumberWithFallback(insts: seq<SymbolInstance>, s: seq<Extent>, order: seq<nat>, stated: map<int, int>)
    returns (roots: seq<nat>)
    requires Distinct(insts) && |insts| == |s| && order == OrderOf(s)
    modifies insts
    ensures var chosen := ChosenParents(s, stated);
            && IsNumbering(chosen, order, FoldedFlags(insts), Places(insts))
            && IsChildList(chosen, order, -1, roots)
  {
    DerivedIsForest(s, order);
    var derived := DeriveParents(s, order);
    var parent := MergeStated(derived, stated);
    var numbered;
    numbered, roots := NumberBy(insts, parent, s, order);
    if numbered != |insts| && |stated| > 0 {
      ClearFields(insts);
      numbered, roots := NumberBy(insts, derived, s, order);
    } else if |stated| == 0 {
      assert Merged(Derived(s, order), stated) == Derived(s, order);
    }
  }

  lemma ConcludeNumbered(
      s: seq<Extent>, stated: map<int, int>, insts: seq<SymbolInstance>, refs: seq<SymbolRef>, roots: seq<nat>)
    requires |s| == |insts| > 0
    requires IsNumbering(ChosenParents(s, stated), OrderOf(s), FoldedFlags(insts), Places(insts))
    requires IsChildList(ChosenParents(s, stated), OrderOf(s), -1, roots)
    requires |roots| > 0 ==>
               forall k | 0 <= k < |refs| ::
                   IsPlaced(s, OrderOf(s), roots[0], Places(insts), FoldedFlags(insts), refs[k])
    ensures IsNumbered(s, stated, insts, refs)
  {
    FirstOfRoots(ChosenParents(s, stated), OrderOf(s), roots);
    forall k | 0 <= k < |refs|
      ensures IsPointOf(s, OrderOf(s), roots[0], Places(insts), FoldedFlags(insts), RangesOf(refs)[k], Points(refs)[k])
    {
      assert IsPlaced(s, OrderOf(s), roots[0], Places(insts), FoldedFlags(insts), refs[k]);
    }
  }

  lemma NumberedHasStrides(s: seq<Extent>, stated: map<int, int>, insts: seq<SymbolInstance>, refs: seq<SymbolRef>)
    requires |s| == |insts| && IsNumbered(s, stated, insts, refs)
    ensures AreStrides(Places(insts))
  {
    hide IsNumbering, ChosenParents, OrderOf, IsFirstRoot;
    NumberingHasStrides(ChosenParents(s, stated), OrderOf(s), FoldedFlags(insts), Places(insts));
  }

  method NumberObjectTree(obj: Object, rankBySymbol: map<int, nat>, stated: map<int, int>)
    requires Distinct(obj.symbolInstances) && Distinct(obj.refs)
    modifies obj.symbolInstances, obj.refs
    ensures |obj.symbolInstances| > 0 ==>
              && IsNumbered(Extents(Infos(obj.symbolInstances), rankBySymbol), stated, obj.symbolInstances, obj.refs)
              && AreStrides(Places(obj.symbolInstances))
  {
    var insts := obj.symbolInstances;
    if |insts| == 0 {
      return;
    }
    var s := Extents(Infos(insts), rankBySymbol);
    var order := OrderOf(s);
    var roots := NumberWithFallback(insts, s, order, stated);
    NumberRefs(insts, s, order, roots, obj.refs);
    ConcludeNumbered(s, stated, insts, obj.refs, roots);
    NumberedHasStrides(s, stated, insts, obj.refs);
  }
}
