/**
 Stated parents against derived ones. A stated parent must be an earlier instance of the
 slice, but a derived one may be a later one, so the two together can form a cycle. This
 is when they do not.
 */
module Stated {
  import opened StableOrder
  import opened Containment
  import opened Forest
  import opened DerivedTree
  import opened Numbering

  /** The first instance with a stated parent met on the derived way up from `y`, itself included. */
  ghost function FirstStated(s: seq<Extent>, order: seq<nat>, stated: map<int, int>, y: int): (c: int)
    requires IsOrder(s, order) && -1 <= y < |s|
    ensures -1 <= c < |s| && (c >= 0 ==> Applies(|s|, stated, c))
    decreases if y < 0 then -1 else Pos(order, y)
  {
    if y < 0 then -1
    else if Applies(|s|, stated, y) then y
    else
      var p := Derived(s, order)[y];
      assert p >= 0 ==> Pos(order, p) < Pos(order, y) by {
        if p >= 0 {
          ContainerComesFirst(s, order, p, y);
        }
      }
      FirstStated(s, order, stated, p)
  }

  /** From each instance with a stated parent, the next such one at or above that parent. */
  ghost function Hops(s: seq<Extent>, order: seq<nat>, stated: map<int, int>): (hops: seq<int>)
    requires IsOrder(s, order)
    ensures |hops| == |s| && IsParents(hops)
  {
    seq(|s|, c requires 0 <= c < |s| =>
      if Applies(|s|, stated, c) then FirstStated(s, order, stated, stated[c]) else -1)
  }

  lemma {:induction false} MergedRootedHops(s: seq<Extent>, order: seq<nat>, stated: map<int, int>, y: int, k: nat)
    requires IsOrder(s, order) && -1 <= y < |s| && IsParents(Derived(s, order))
    requires Up(Merged(Derived(s, order), stated), y, k) == -1
    ensures Rooted(Hops(s, order, stated), FirstStated(s, order, stated, y))
    decreases k
  {
    var hops := Hops(s, order, stated);
    NoneIsRooted(hops);
    if y >= 0 {
      MergedRootedHops(s, order, stated, Merged(Derived(s, order), stated)[y], k - 1);
      if Applies(|s|, stated, y) {
        RootedStep(hops, y);
      }
    }
  }

  lemma {:induction false} HopsRootedMerged(s: seq<Extent>, order: seq<nat>, stated: map<int, int>, y: int, k: nat)
    requires IsOrder(s, order) && -1 <= y < |s| && IsParents(Derived(s, order))
    requires Up(Hops(s, order, stated), FirstStated(s, order, stated, y), k) == -1
    ensures Rooted(Merged(Derived(s, order), stated), y)
    decreases k, if y < 0 then -1 else Pos(order, y)
  {
    var merged := Merged(Derived(s, order), stated);
    NoneIsRooted(merged);
    if y >= 0 {
      if Applies(|s|, stated, y) {
        HopsRootedMerged(s, order, stated, stated[y], k - 1);
      } else {
        var p := Derived(s, order)[y];
        if p >= 0 {
          ContainerComesFirst(s, order, p, y);
        }
        HopsRootedMerged(s, order, stated, p, k);
      }
      RootedStep(merged, y);
    }
  }

  /**
   All stated parents are honoured exactly when going from a stated child to its stated
   parent, then up by range to the next stated child, never comes around.
   */
  lemma MergedIsForestIffHopsEnd(s: seq<Extent>, order: seq<nat>, stated: map<int, int>)
    requires IsOrder(s, order) && IsParents(Derived(s, order))
    ensures IsForest(Merged(Derived(s, order), stated)) <==> IsForest(Hops(s, order, stated))
  {
    var merged, hops := Merged(Derived(s, order), stated), Hops(s, order, stated);
    NoneIsRooted(hops);
    if IsForest(merged) {
      forall c | 0 <= c < |s| ensures Rooted(hops, c) {
        assert Rooted(merged, c);
        var k: nat :| Up(merged, c, k) == -1;
        MergedRootedHops(s, order, stated, c, k);
        RootedStep(hops, c);
      }
    }
    if IsForest(hops) {
      forall y | 0 <= y < |s| ensures Rooted(merged, y) {
        var c := FirstStated(s, order, stated, y);
        assert Rooted(hops, c);
        var k: nat :| Up(hops, c, k) == -1;
        HopsRootedMerged(s, order, stated, y, k);
      }
    }
  }

  lemma {:induction false} FirstStatedIsAbove(s: seq<Extent>, order: seq<nat>, stated: map<int, int>, y: nat)
    requires IsOrder(s, order) && y < |s| && IsParents(Derived(s, order))
    ensures var c := FirstStated(s, order, stated, y);
            c >= 0 ==> AncestorOrSelf(Derived(s, order), c, y)
    ensures FirstStated(s, order, stated, y) == -1 ==>
              forall c: nat | c < |s| && Applies(|s|, stated, c) :: !AncestorOrSelf(Derived(s, order), c, y)
    decreases Pos(order, y)
  {
    var d := Derived(s, order);
    forall c: nat | c < |s| {
      AncestorStep(d, c, y);
    }
    if !Applies(|s|, stated, y) && d[y] >= 0 {
      ContainerComesFirst(s, order, d[y], y);
      FirstStatedIsAbove(s, order, stated, d[y]);
    }
  }

  // ------------------------------------------------------------------
  // The way up in the merged tree

  /** `c` is on the way up by range from `y` to the first instance with a stated parent, both ends included. */
  ghost predicate IsOnStretch(s: seq<Extent>, order: seq<nat>, stated: map<int, int>, c: nat, y: int)
    requires IsOrder(s, order) && c < |s| && -1 <= y < |s|
  {
    && y >= 0 && (c == y || ContainersNest(s, order, c, y))
    && var t := FirstStated(s, order, stated, y); t >= 0 ==> Pos(order, t) <= Pos(order, c)
  }

  /** Where the way up from `y` goes on after `k` stated parents, or -1 when there are fewer. */
  ghost function Landing(s: seq<Extent>, order: seq<nat>, stated: map<int, int>, y: int, k: nat): (r: int)
    requires IsOrder(s, order) && -1 <= y < |s|
    ensures -1 <= r < |s|
    decreases k
  {
    if k == 0 || y == -1 then y
    else
      var t := FirstStated(s, order, stated, y);
      if t == -1 then -1 else Landing(s, order, stated, stated[t], k - 1)
  }

  /** `c` is on the stretch after `k` stated parents. */
  ghost predicate IsOnWayUp(s: seq<Extent>, order: seq<nat>, stated: map<int, int>, c: nat, x: nat, k: nat)
    requires IsOrder(s, order) && c < |s| && x < |s|
  {
    IsOnStretch(s, order, stated, c, Landing(s, order, stated, x, k))
  }

  /** Below the first instance with a stated parent, one step up by range stays on the same way. */
  lemma SameWayUp(s: seq<Extent>, order: seq<nat>, stated: map<int, int>, x: nat, k: nat)
    requires IsOrder(s, order) && x < |s| && !Applies(|s|, stated, x)
    ensures var p := Derived(s, order)[x];
            && FirstStated(s, order, stated, x) == FirstStated(s, order, stated, p)
            && (k > 0 ==> Landing(s, order, stated, x, k) == Landing(s, order, stated, p, k))
  {}

  /** One step of range derivation in terms of the ranges. */
  lemma NestStep(s: seq<Extent>, order: seq<nat>, c: nat, x: nat)
    requires IsOrder(s, order) && c < |s| && x < |s| && IsParents(Derived(s, order))
    ensures var p := Derived(s, order)[x];
            ContainersNest(s, order, c, x) <==> p >= 0 && (c == p || ContainersNest(s, order, c, p))
    ensures ContainersNest(s, order, c, x) ==> Pos(order, c) < Pos(order, x)
  {
    hide ContainersNest, Derived;
    DerivedAncestorIffContainersNest(s, order, c, x);
    DerivedAncestorIsRun(s, order, c, x);
    AncestorStep(Derived(s, order), c, x);
    if Derived(s, order)[x] >= 0 {
      DerivedAncestorIffContainersNest(s, order, c, Derived(s, order)[x]);
    }
  }

  lemma FirstStatedComesFirst(s: seq<Extent>, order: seq<nat>, stated: map<int, int>, y: nat)
    requires IsOrder(s, order) && y < |s| && IsParents(Derived(s, order))
    ensures var t := FirstStated(s, order, stated, y); t >= 0 ==> Pos(order, t) <= Pos(order, y)
  {
    FirstStatedIsAbove(s, order, stated, y);
    var t := FirstStated(s, order, stated, y);
    if t >= 0 {
      DerivedAncestorIsRun(s, order, t, y);
    }
  }

  lemma {:induction false} ReachedIsOnWayUp(
      s: seq<Extent>, order: seq<nat>, stated: map<int, int>, c: nat, x: nat, n: nat)
    returns (k: nat)
    requires IsOrder(s, order) && c < |s| && x < |s| && IsParents(Derived(s, order))
    requires Up(Merged(Derived(s, order), stated), x, n) == c
    ensures IsOnWayUp(s, order, stated, c, x, k)
    decreases n
  {
    hide ContainersNest, Derived;
    if n == 0 {
      k := 0;
      FirstStatedComesFirst(s, order, stated, x);
    } else {
      var p := Merged(Derived(s, order), stated)[x];
      k := ReachedIsOnWayUp(s, order, stated, c, p, n - 1);
      if Applies(|s|, stated, x) {
        k := k + 1;
      } else {
        SameWayUp(s, order, stated, x, k);
        NestStep(s, order, c, x);
      }
    }
  }

  lemma {:induction false} WayUpIsReached(
      s: seq<Extent>, order: seq<nat>, stated: map<int, int>, c: nat, x: nat, k: nat)
    requires IsOrder(s, order) && c < |s| && x < |s| && IsParents(Derived(s, order))
    requires IsOnWayUp(s, order, stated, c, x, k)
    ensures AncestorOrSelf(Merged(Derived(s, order), stated), c, x)
    decreases k, Pos(order, x)
  {
    hide ContainersNest, Derived;
    var merged := Merged(Derived(s, order), stated);
    if k > 0 || c != x {
      AncestorStep(merged, c, x);
      if Applies(|s|, stated, x) {
        NestStep(s, order, c, x);
        WayUpIsReached(s, order, stated, c, stated[x], k - 1);
      } else {
        var p := Derived(s, order)[x];
        SameWayUp(s, order, stated, x, k);
        NestStep(s, order, c, x);
        NestStep(s, order, p, x);
        WayUpIsReached(s, order, stated, c, p, k);
      }
    }
  }

  /** The merged ancestors, cycles or not: up by range as far as a stated parent, from there on the same way. */
  lemma MergedAncestorIsOnWayUp(s: seq<Extent>, order: seq<nat>, stated: map<int, int>, c: nat, x: nat)
    requires IsOrder(s, order) && c < |s| && x < |s| && IsParents(Derived(s, order))
    ensures AncestorOrSelf(Merged(Derived(s, order), stated), c, x)
            <==> exists k: nat :: IsOnWayUp(s, order, stated, c, x, k)
  {
    hide IsOnWayUp;
    var merged := Merged(Derived(s, order), stated);
    if AncestorOrSelf(merged, c, x) {
      var n: nat := 0;
      if c != x {
        var m: nat :| Up(merged, merged[x], m) == c;
        n := m + 1;
      }
      var k := ReachedIsOnWayUp(s, order, stated, c, x, n);
    }
    if k: nat :| IsOnWayUp(s, order, stated, c, x, k) {
      WayUpIsReached(s, order, stated, c, x, k);
    }
  }

  // ------------------------------------------------------------------
  // When all stated parents are honoured

  /** Enough: no stated parent lies in the derived subtree of a stated child. */
  lemma SeparateStatedAreHonoured(s: seq<Extent>, order: seq<nat>, stated: map<int, int>)
    requires IsOrder(s, order) && IsParents(Derived(s, order))
    requires forall c: nat, d: nat | Applies(|s|, stated, c) && Applies(|s|, stated, d) ::
               !AncestorOrSelf(Derived(s, order), c, stated[d])
    ensures IsForest(Merged(Derived(s, order), stated))
  {
    var hops := Hops(s, order, stated);
    NoneIsRooted(hops);
    forall c | 0 <= c < |s| ensures Rooted(hops, c) {
      if Applies(|s|, stated, c) {
        FirstStatedIsAbove(s, order, stated, stated[c]);
      }
      RootedStep(hops, c);
    }
    MergedIsForestIffHopsEnd(s, order, stated);
  }

  /** Enough as well: every stated parent stands before its child in the order, as derived ones do. */
  lemma EarlierStatedAreHonoured(s: seq<Extent>, order: seq<nat>, stated: map<int, int>)
    requires IsOrder(s, order) && IsParents(Derived(s, order))
    requires forall c: nat | Applies(|s|, stated, c) :: Pos(order, stated[c]) < Pos(order, c)
    ensures IsForest(Merged(Derived(s, order), stated))
  {
    var merged := Merged(Derived(s, order), stated);
    forall x: nat | x < |merged| && merged[x] >= 0 ensures Pos(order, merged[x]) < Pos(order, x) {
      if !Applies(|s|, stated, x) {
        ContainerComesFirst(s, order, merged[x], x);
      }
    }
    forall y | 0 <= y < |merged| ensures Rooted(merged, y) {
      EarlierParentsAreRooted(merged, order, y);
    }
  }

  /** For a single stated parent `p` of `c`, exactly: `p` is not in the run of instances `c` contains. */
  lemma OneStatedIsHonoured(s: seq<Extent>, order: seq<nat>, c: nat, p: nat)
    requires IsOrder(s, order) && c < |s| && p < |s| && c != p && IsParents(Derived(s, order))
    ensures IsForest(Merged(Derived(s, order), map[c as int := p as int]))
            <==> !(Pos(order, c) < Pos(order, p) && Sweep.ContainsUpTo(s, order, c, Pos(order, p) + 1))
  {
    var stated: map<int, int> := map[c as int := p as int];
    var hops := Hops(s, order, stated);
    DerivedAncestorIsRun(s, order, c, p);
    MergedIsForestIffHopsEnd(s, order, stated);
    FirstStatedIsAbove(s, order, stated, p);
    assert Applies(|s|, stated, c);
    if hops[c] == c {
      LoopIsNotRooted(hops, c);
    } else {
      assert hops[c] == -1;
      NoneIsRooted(hops);
      forall y | 0 <= y < |s| ensures Rooted(hops, y) {
        RootedStep(hops, y);
      }
    }
  }

  lemma {:induction false} LoopUp(parent: seq<int>, c: nat, k: nat)
    requires IsParents(parent) && c < |parent| && parent[c] == c
    ensures Up(parent, c, k) == c
  {
    if k > 0 {
      LoopUp(parent, c, k - 1);
    }
  }

  lemma LoopIsNotRooted(parent: seq<int>, c: nat)
    requires IsParents(parent) && c < |parent| && parent[c] == c
    ensures !Rooted(parent, c)
  {
    forall k: nat ensures Up(parent, c, k) != -1 {
      LoopUp(parent, c, k);
    }
  }

  /**
   A cycle can be stated although the stated parent comes first in the slice: [0, 100) added
   after [10, 20) and claiming to lie inside it.
   */
  lemma CycleCanBeStated()
    ensures var s := [Extent(10, 20, 3), Extent(0, 100, 3)];
            var stated: map<int, int> := map[1 := 0];
            && (forall c | c in stated :: stated[c] < c)
            && IsParents(Derived(s, OrderOf(s))) && !IsForest(Merged(Derived(s, OrderOf(s)), stated))
  {
    var s := [Extent(10, 20, 3), Extent(0, 100, 3)];
    var order := OrderOf(s);
    DerivedIsForest(s, order);
    ContainerComesFirst(s, order, 1, 0);
    assert Pos(order, 0) == 1 && order[1] == 0;
    OneStatedIsHonoured(s, order, 1, 0);
  }

  /** A cycle gives the tree of an object for which nothing was stated. */
  lemma CyclesFallBack(s: seq<Extent>, stated: map<int, int>)
    requires IsParents(Derived(s, OrderOf(s))) && !IsForest(Merged(Derived(s, OrderOf(s)), stated))
    ensures ChosenParents(s, stated) == ChosenParents(s, map[]) == Derived(s, OrderOf(s))
  {
    assert Merged(Derived(s, OrderOf(s)), map[]) == Derived(s, OrderOf(s));
  }
}
