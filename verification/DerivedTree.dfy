/**
 What the derived parentage means in terms of the ranges, with nothing assumed of them.
 */
module DerivedTree {
  import opened StableOrder
  import opened Containment
  import opened Forest
  import opened Sweep

  /** Range derivation is acyclic whatever the ranges. */
  lemma DerivedIsForest(s: seq<Extent>, order: seq<nat>)
    requires IsOrder(s, order)
    ensures IsParents(Derived(s, order)) && IsForest(Derived(s, order))
  {
    var d := Derived(s, order);
    forall x: nat | x < |d| && d[x] >= 0 ensures Pos(order, d[x]) < Pos(order, x) {
      ContainerComesFirst(s, order, d[x], x);
    }
    forall y | 0 <= y < |d| ensures Rooted(d, y) {
      EarlierParentsAreRooted(d, order, y);
    }
  }

  /** The parent of `x` contains all that is sorted between the two. */
  lemma ParentContainsRun(s: seq<Extent>, order: seq<nat>, x: nat)
    requires IsOrder(s, order) && x < |s| && Derived(s, order)[x] >= 0
    ensures var p := Derived(s, order)[x];
            Pos(order, p) < Pos(order, x) && ContainsUpTo(s, order, p, Pos(order, x) + 1)
  {
    var p := Derived(s, order)[x];
    ContainerComesFirst(s, order, p, x);
    LastContainerIsOpen(s, order, Pos(order, x), p);
  }

  /** An instance's derived subtree is the run of instances after it that it contains, no more and no less. */
  lemma {:induction false} DerivedAncestorIsRun(s: seq<Extent>, order: seq<nat>, c: nat, x: nat)
    requires IsOrder(s, order) && c < |s| && x < |s|
    requires IsParents(Derived(s, order))
    ensures Ancestor(Derived(s, order), c, x)
            <==> Pos(order, c) < Pos(order, x) && ContainsUpTo(s, order, c, Pos(order, x) + 1)
    decreases Pos(order, x)
  {
    var d := Derived(s, order);
    AncestorStep(d, c, x);
    DerivedIsInnermost(s, order, x);
    assert order[Pos(order, x)] == x && order[Pos(order, c)] == c;
    if d[x] >= 0 {
      var p: nat := d[x];
      assert order[Pos(order, p)] == p;
      ParentContainsRun(s, order, x);
      DerivedAncestorIsRun(s, order, c, p);
      if Ancestor(d, c, p) {
        forall j | Pos(order, c) < j < Pos(order, x) + 1 ensures Contains(s[c], s[order[j]]) {
          assert Contains(s[c], s[order[Pos(order, p)]]);
          ContainsLaws(s[c], s[p], s[order[j]]);
        }
      }
    }
  }

  lemma DerivedAncestorContains(s: seq<Extent>, order: seq<nat>, c: nat, x: nat)
    requires IsOrder(s, order) && c < |s| && x < |s|
    requires IsParents(Derived(s, order)) && Ancestor(Derived(s, order), c, x)
    ensures Contains(s[c], s[x])
  {
    DerivedAncestorIsRun(s, order, c, x);
    assert order[Pos(order, x)] == x;
  }

  /** `c` contains `x` and every closer container of `x`. */
  ghost predicate ContainersNest(s: seq<Extent>, order: seq<nat>, c: nat, x: nat)
    requires IsOrder(s, order) && c < |s| && x < |s|
  {
    && Contains(s[c], s[x])
    && forall y: nat | y < |s| && Contains(s[y], s[x]) && Pos(order, c) < Pos(order, y) :: Contains(s[c], s[y])
  }

  /** A container by range is an ancestor by range derivation exactly when it contains every closer one too. */
  lemma DerivedAncestorIffContainersNest(s: seq<Extent>, order: seq<nat>, c: nat, x: nat)
    requires IsOrder(s, order) && c < |s| && x < |s|
    requires IsParents(Derived(s, order))
    ensures Ancestor(Derived(s, order), c, x) <==> ContainersNest(s, order, c, x)
  {
    DerivedAncestorIsRun(s, order, c, x);
    assert order[Pos(order, x)] == x;
    if Ancestor(Derived(s, order), c, x) {
      forall y: nat | y < |s| && Contains(s[y], s[x]) && Pos(order, c) < Pos(order, y) ensures Contains(s[c], s[y]) {
        ContainerComesFirst(s, order, y, x);
        assert order[Pos(order, y)] == y;
      }
    } else if Contains(s[c], s[x]) {
      ContainerComesFirst(s, order, c, x);
      var j :| Pos(order, c) < j < Pos(order, x) + 1 && !Contains(s[c], s[order[j]]);
      SortLessIsStrictWeak(s);
      PosOfElement(s, order, j);
      PosIsBefore(|s|, SortLess(s), order, c, order[j]);
      PosIsBefore(|s|, SortLess(s), order, order[j], x);
      BetweenContains(s[c], s[order[j]], s[x]);
    }
  }

  /** Two co-extensive siblings: the second takes the child, so the first does not enclose it. */
  lemma ContainerNeedNotBeAncestor()
    ensures var s := [Extent(0, 10, 3), Extent(0, 10, 3), Extent(2, 4, 3)];
            IsParents(Derived(s, OrderOf(s))) && Contains(s[0], s[2]) && !Ancestor(Derived(s, OrderOf(s)), 0, 2)
  {
    var s := [Extent(0, 10, 3), Extent(0, 10, 3), Extent(2, 4, 3)];
    var order := OrderOf(s);
    SortLessIsStrictWeak(s);
    PosIsBefore(|s|, SortLess(s), order, 0, 1);
    DerivedAncestorIffContainersNest(s, order, 0, 2);
  }

  // ------------------------------------------------------------------
  // Well-nested ranges

  predicate Disjoint(a: Extent, b: Extent) {
    a.end <= b.start || b.end <= a.start
  }

  /** Non-empty, and any two either apart or one inside the other. */
  ghost predicate IsLaminar(s: seq<Extent>) {
    && (forall x | 0 <= x < |s| :: s[x].start < s[x].end)
    && (forall x, y | 0 <= x < |s| && 0 <= y < |s| && x != y ::
          Disjoint(s[x], s[y]) || Contains(s[x], s[y]) || Contains(s[y], s[x]))
  }

  lemma LaminarAncestorIsContainer(s: seq<Extent>, order: seq<nat>, c: nat, x: nat)
    requires IsOrder(s, order) && IsLaminar(s) && c < |s| && x < |s|
    requires IsParents(Derived(s, order))
    ensures Ancestor(Derived(s, order), c, x) <==> Contains(s[c], s[x])
  {
    DerivedAncestorIffContainersNest(s, order, c, x);
    forall y: nat | y < |s| && Contains(s[c], s[x]) && Contains(s[y], s[x]) && Pos(order, c) < Pos(order, y)
      ensures Contains(s[c], s[y])
    {
      assert c != y && !Disjoint(s[c], s[y]);
      if Contains(s[y], s[c]) {
        ContainerComesFirst(s, order, y, c);
      }
    }
  }

  /** The ancestors, itself included, of a well-nested reference's owner are all that cover it. */
  lemma LaminarOwnerAncestry(s: seq<Extent>, order: seq<nat>, r: Range, o: nat, c: nat)
    requires IsOrder(s, order) && IsLaminar(s) && r.start < r.end && o < |s| && c < |s|
    requires IsParents(Derived(s, order)) && LastCovering(s, order, r, |s|) == o
    ensures AncestorOrSelf(Derived(s, order), c, o) <==> Covers(s[c], r)
  {
    LaminarAncestorIsContainer(s, order, c, o);
    assert order[Pos(order, c)] == c;
    if Covers(s[c], r) && c != o {
      assert !Disjoint(s[c], s[o]);
      if Contains(s[o], s[c]) {
        ContainerComesFirst(s, order, o, c);
      }
    }
  }
}
