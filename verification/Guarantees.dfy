/**
 What the numbers of one object say, in the terms a query uses: which intervals enclose
 which, and which enclose a reference.
 */
module Guarantees {
  import opened StableOrder
  import opened Containment
  import opened Forest
  import opened DerivedTree
  import opened Counting
  import opened Numbering
  import opened Stated
  import opened References

  /** The interval of `x` holds the number `v`. */
  predicate Holds(num: seq<Place>, x: nat, v: int)
    requires x < |num|
  {
    num[x].enter < v < num[x].exit
  }

  /** Whatever was stated: intervals enclose each other along the chosen tree and nowhere else. */
  lemma IntervalsAreTheTree(
      s: seq<Extent>, stated: map<int, int>, folded: seq<bool>, ranges: seq<Range>, num: seq<Place>, points: seq<Point>,
      x: nat, y: nat)
    requires |s| == |folded| && AreNumbers(s, stated, folded, ranges, num, points) && x < |s| && y < |s|
    ensures |num| == |s|
    ensures Holds(num, x, num[y].enter) <==> Ancestor(ChosenParents(s, stated), x, y)
    ensures Holds(num, x, num[y].enter) && num[y].level == num[x].level + 1 <==> ChosenParents(s, stated)[y] == x
  {
    hide ChosenParents, IsFirstRoot, IsPointOf, IsTimeline;
    IntervalIsAncestry(ChosenParents(s, stated), OrderOf(s), folded, num, x, y);
    DirectChildren(ChosenParents(s, stated), OrderOf(s), folded, num, x, y);
  }

  /** Levels count the intervals around an instance, fold depths the folded ones among them. */
  lemma LevelsCountIntervals(
      s: seq<Extent>, stated: map<int, int>, folded: seq<bool>, ranges: seq<Range>, num: seq<Place>, points: seq<Point>,
      y: nat)
    requires |s| == |folded| && AreNumbers(s, stated, folded, ranges, num, points) && y < |s|
    ensures |num| == |s|
    ensures num[y].level == |set x: nat | x < |num| && Holds(num, x, num[y].enter)|
    ensures num[y].fold == |set x: nat | x < |num| && Holds(num, x, num[y].enter) && folded[x]|
  {
    hide ChosenParents, IsFirstRoot, IsPointOf, IsTimeline;
    var parent := ChosenParents(s, stated);
    LevelsCountAncestors(parent, OrderOf(s), folded, num, y);
    forall x: nat | x < |num| ensures Holds(num, x, num[y].enter) <==> Ancestor(parent, x, y) {
      IntervalIsAncestry(parent, OrderOf(s), folded, num, x, y);
    }
    assert Ancestors(parent, y) == set x: nat | x < |num| && Holds(num, x, num[y].enter);
    assert FoldedAncestors(parent, folded, y) == set x: nat | x < |num| && Holds(num, x, num[y].enter) && folded[x];
  }

  /**
   A reference is held by the intervals of its owner and of the owner's ancestors, and by no
   other; the owner is the innermost instance covering its range, or else the first root.
   */
  lemma ReferenceIsHeldByOwner(
      s: seq<Extent>, stated: map<int, int>, folded: seq<bool>, ranges: seq<Range>, num: seq<Place>, points: seq<Point>,
      k: nat) returns (o: nat)
    requires |s| == |folded| && AreNumbers(s, stated, folded, ranges, num, points) && k < |ranges|
    ensures |num| == |s| && |points| == |ranges| && o < |s|
    ensures var last := LastCovering(s, OrderOf(s), ranges[k], |s|);
            if last >= 0 then o == last else IsFirstRoot(ChosenParents(s, stated), OrderOf(s), o)
    ensures forall x: nat | x < |s| ::
              Holds(num, x, points[k].enter) <==> AncestorOrSelf(ChosenParents(s, stated), x, o)
    ensures points[k].enter == num[o].enter + 1 && points[k].level == num[o].level + 1
    ensures points[k].fold == num[o].fold + if folded[o] then 1 else 0
  {
    var parent, order := ChosenParents(s, stated), OrderOf(s);
    hide ChosenParents, OrderOf, LastCovering, IsTimeline;
    var root: nat :| IsFirstRoot(parent, order, root)
                     && forall k | 0 <= k < |ranges| :: IsPointOf(s, order, root, num, folded, ranges[k], points[k]);
    assert IsPointOf(s, order, root, num, folded, ranges[k], points[k]);
    o :| IsOwner(s, order, root, ranges[k], o)
         && points[k] == Point(num[o].enter + 1, num[o].level + 1, num[o].fold + FoldStep(folded[o]));
    forall x: nat | x < |s| ensures Holds(num, x, points[k].enter) <==> AncestorOrSelf(parent, x, o) {
      PointIsInsideOwner(parent, order, folded, num, o, x);
    }
  }

  /**
   In the numbers `c` encloses `x` exactly when it is met on the way up: by range, to containers
   that contain every closer one, as far as an instance with a stated parent, from that parent
   on in the same way. When the stated parents close a cycle, by range alone.
   */
  ghost predicate Encloses(s: seq<Extent>, stated: map<int, int>, c: nat, x: nat)
    requires c < |s| && x < |s|
  {
    var order := OrderOf(s);
    if IsForest(Hops(s, order, stated)) then c != x && exists k: nat :: IsOnWayUp(s, order, stated, c, x, k)
    else ContainersNest(s, order, c, x)
  }

  lemma IntervalsAreWaysUp(
      s: seq<Extent>, stated: map<int, int>, folded: seq<bool>, ranges: seq<Range>, num: seq<Place>, points: seq<Point>,
      c: nat, x: nat)
    requires |s| == |folded| && AreNumbers(s, stated, folded, ranges, num, points) && c < |s| && x < |s|
    ensures |num| == |s|
    ensures Holds(num, c, num[x].enter) <==> Encloses(s, stated, c, x)
  {
    hide IsFirstRoot, IsNumbering, Derived, AreNumbers, OrderOf, Hops, IsOnWayUp, ContainersNest, Merged, IsForest;
    var order := OrderOf(s);
    IntervalsAreTheTree(s, stated, folded, ranges, num, points, c, x);
    DerivedIsForest(s, order);
    MergedIsForestIffHopsEnd(s, order, stated);
    MergedAncestorIsOnWayUp(s, order, stated, c, x);
    DerivedAncestorIffContainersNest(s, order, c, x);
    ChosenIsMerged(s, stated);
    if c == x {
      assert !Holds(num, c, num[c].enter);
    }
  }

  lemma ChosenIsMerged(s: seq<Extent>, stated: map<int, int>)
    ensures IsParents(Derived(s, OrderOf(s)))
    ensures ChosenParents(s, stated) == if IsForest(Merged(Derived(s, OrderOf(s)), stated))
                                        then Merged(Derived(s, OrderOf(s)), stated) else Derived(s, OrderOf(s))
  {
    hide OrderOf, Derived, Merged, IsForest;
    DerivedIsForest(s, OrderOf(s));
  }

  /** Nothing stated that could apply. */
  ghost predicate NothingStated(n: nat, stated: map<int, int>) {
    forall c :: !Applies(n, stated, c)
  }

  lemma NothingStatedIsDerived(s: seq<Extent>, stated: map<int, int>)
    requires NothingStated(|s|, stated)
    ensures IsParents(Derived(s, OrderOf(s))) && ChosenParents(s, stated) == Derived(s, OrderOf(s))
  {
    DerivedIsForest(s, OrderOf(s));
    assert Merged(Derived(s, OrderOf(s)), stated) == Derived(s, OrderOf(s));
  }

  /** With well-nested ranges and nothing stated, intervals enclose exactly as ranges do. */
  lemma LaminarIntervalsAreRanges(
      s: seq<Extent>, stated: map<int, int>, folded: seq<bool>, ranges: seq<Range>, num: seq<Place>, points: seq<Point>,
      x: nat, y: nat)
    requires |s| == |folded| && AreNumbers(s, stated, folded, ranges, num, points) && x < |s| && y < |s|
    requires IsLaminar(s) && NothingStated(|s|, stated)
    ensures |num| == |s|
    ensures Holds(num, x, num[y].enter) <==> Contains(s[x], s[y])
  {
    hide ChosenParents, IsFirstRoot, IsPointOf, IsNumbering, Derived, IsLaminar, AreNumbers;
    IntervalsAreTheTree(s, stated, folded, ranges, num, points, x, y);
    NothingStatedIsDerived(s, stated);
    LaminarAncestorIsContainer(s, OrderOf(s), x, y);
  }

  /** A non-empty reference that some instance covers is held by exactly those that cover it. */
  lemma CoveredReferenceIsHeldByCovers(
      s: seq<Extent>, stated: map<int, int>, folded: seq<bool>, ranges: seq<Range>, num: seq<Place>, points: seq<Point>,
      k: nat, x: nat)
    requires |s| == |folded| && AreNumbers(s, stated, folded, ranges, num, points) && x < |s| && k < |ranges|
    requires IsLaminar(s) && NothingStated(|s|, stated) && ranges[k].start < ranges[k].end
    requires exists c :: 0 <= c < |s| && Covers(s[c], ranges[k])
    ensures |num| == |s| && |points| == |ranges|
    ensures Holds(num, x, points[k].enter) <==> Covers(s[x], ranges[k])
  {
    var order := OrderOf(s);
    hide ChosenParents, IsFirstRoot, IsPointOf, IsNumbering, Derived, IsLaminar, AreNumbers, OrderOf;
    var o := ReferenceIsHeldByOwner(s, stated, folded, ranges, num, points, k);
    var c: nat :| c < |s| && Covers(s[c], ranges[k]);
    assert order[Pos(order, c)] == c;
    NothingStatedIsDerived(s, stated);
    LaminarOwnerAncestry(s, order, ranges[k], o, x);
  }

  /** Exactly when some instance covers the reference; otherwise the first root holds it all the same. */
  lemma LaminarReferenceIsHeldByCovers(
      s: seq<Extent>, stated: map<int, int>, folded: seq<bool>, ranges: seq<Range>, num: seq<Place>, points: seq<Point>,
      k: nat)
    requires |s| == |folded| && AreNumbers(s, stated, folded, ranges, num, points) && k < |ranges|
    requires IsLaminar(s) && NothingStated(|s|, stated) && ranges[k].start < ranges[k].end
    ensures |num| == |s| && |points| == |ranges|
    ensures (exists c :: 0 <= c < |s| && Covers(s[c], ranges[k]))
            <==> forall x: nat | x < |s| :: Holds(num, x, points[k].enter) <==> Covers(s[x], ranges[k])
  {
    hide ChosenParents, IsFirstRoot, IsPointOf, IsNumbering, Derived, IsLaminar, AreNumbers, OrderOf;
    var o := ReferenceIsHeldByOwner(s, stated, folded, ranges, num, points, k);
    if exists c :: 0 <= c < |s| && Covers(s[c], ranges[k]) {
      forall x: nat | x < |s| ensures Holds(num, x, points[k].enter) <==> Covers(s[x], ranges[k]) {
        CoveredReferenceIsHeldByCovers(s, stated, folded, ranges, num, points, k, x);
      }
    } else {
      assert Holds(num, o, points[k].enter) && !Covers(s[o], ranges[k]);
    }
  }
}
