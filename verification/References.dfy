/** Placing every reference as a point in the containment order, by the same sweep. */
module References {
  import opened StableOrder
  import opened Containment
  import opened Forest
  import opened Sweep
  import opened Entities

  // ------------------------------------------------------------------
  // Which instance owns a reference

  /** The innermost instance covering `r`, or else the first root. */
  ghost predicate IsOwner(s: seq<Extent>, order: seq<nat>, firstRoot: nat, r: Range, o: nat)
    requires IsOrder(s, order)
  {
    o < |s| && o == if LastCovering(s, order, r, |s|) >= 0 then LastCovering(s, order, r, |s|) else firstRoot
  }

  /** A point one step inside the owner of range `r`. */
  ghost predicate IsPointOf(
      s: seq<Extent>, order: seq<nat>, firstRoot: nat, num: seq<Place>, folded: seq<bool>, r: Range, at: Point)
    requires IsOrder(s, order) && |num| == |folded| == |s|
  {
    exists o: nat ::
      && IsOwner(s, order, firstRoot, r, o)
      && at == Point(num[o].enter + 1, num[o].level + 1, num[o].fold + FoldStep(folded[o]))
  }

  /** The fields of `ref` place it one step inside its owner. */
  ghost predicate IsPlaced(
      s: seq<Extent>, order: seq<nat>, firstRoot: nat, num: seq<Place>, folded: seq<bool>, ref: SymbolRef)
    requires IsOrder(s, order) && |num| == |folded| == |s|
    reads ref
  {
    IsPointOf(s, order, firstRoot, num, folded, ref.Range(), ref.Point())
  }

  /** Instances sorted from `m` on start after `r`, so none of them covers it. */
  lemma {:induction false} NoLaterCovering(s: seq<Extent>, order: seq<nat>, r: Range, m: nat, k: nat)
    requires IsOrder(s, order) && m <= k <= |s|
    requires forall j | m <= j < |s| :: s[order[j]].start > r.start
    ensures LastCovering(s, order, r, k) == LastCovering(s, order, r, m)
  {
    if k > m {
      NoLaterCovering(s, order, r, m, k - 1);
    }
  }

  /** The innermost covering instance among the swept is still on the stack. */
  lemma LastCoveringIsOpen(s: seq<Extent>, order: seq<nat>, m: nat, stack: seq<nat>, r: Range)
    requires IsOrder(s, order) && m <= |s| && IsSwept(s, order, m, stack)
    requires forall j | 0 < j < m :: s[order[j]].start <= r.start
    requires LastCovering(s, order, r, m) >= 0
    ensures LastCovering(s, order, r, m) in stack
  {
    SortLessIsStrictWeak(s);
    var p: nat := LastCovering(s, order, r, m);
    forall j | Pos(order, p) < j < m ensures Contains(s[p], s[order[j]]) {
      PosOfElement(s, order, j);
      PosIsBefore(|s|, SortLess(s), order, p, order[j]);
      if !Contains(s[p], s[order[j]]) {
        BetweenCovers(s[p], s[order[j]], r);
      }
    }
  }

  /** Searching the stack from the top for the first cover of `r`. */
  method FindOwner(s: seq<Extent>, order: seq<nat>, m: nat, stack: seq<nat>, r: Range) returns (owner: int)
    requires IsOrder(s, order) && m <= |s| && IsSwept(s, order, m, stack)
    requires forall j | 0 < j < m :: s[order[j]].start <= r.start
    ensures owner == LastCovering(s, order, r, m)
  {
    ghost var last := LastCovering(s, order, r, m);
    ghost var at := -1;
    if last >= 0 {
      LastCoveringIsOpen(s, order, m, stack, r);
      at :| 0 <= at < |stack| && stack[at] == last;
    }
    owner := -1;
    var k := |stack| - 1;
    while k >= 0
      invariant -1 <= k < |stack|
      invariant forall i | k < i < |stack| :: !Covers(s[stack[i]], r)
    {
      if Covers(s[stack[k]], r) {
        assert order[Pos(order, stack[k])] == stack[k];
        return stack[k];
      }
      k := k - 1;
    }
  }

  // ------------------------------------------------------------------
  // The interleaved sweep

  function RefLess(refs: seq<SymbolRef>): (nat, nat) -> bool {
    (a: nat, b: nat) => a < |refs| && b < |refs| && refs[a].info.start < refs[b].info.start
  }

  ghost predicate IsRefOrder(refs: seq<SymbolRef>, refOrder: seq<nat>) {
    IsStableOrder(|refs|, RefLess(refs), refOrder)
  }

  /** The first `ri` references in order have been placed. */
  ghost predicate PlacedSoFar(
      s: seq<Extent>, order: seq<nat>, firstRoot: nat, num: seq<Place>, folded: seq<bool>,
      refs: seq<SymbolRef>, refOrder: seq<nat>, ri: nat)
    requires IsOrder(s, order) && |num| == |folded| == |s| && IsRefOrder(refs, refOrder) && ri <= |refs|
    reads refs
  {
    forall k | 0 <= k < ri :: IsPlaced(s, order, firstRoot, num, folded, refs[refOrder[k]])
  }

  /** What is left to place starts no earlier than the instances swept after the first. */
  ghost predicate LeftStartsAfter(
      s: seq<Extent>, order: seq<nat>, m: nat, refs: seq<SymbolRef>, refOrder: seq<nat>, ri: nat)
    requires IsOrder(s, order) && m <= |s| && IsRefOrder(refs, refOrder) && ri <= |refs|
  {
    forall j, k | 0 < j < m && ri <= k < |refs| :: s[order[j]].start <= refs[refOrder[k]].info.start
  }

  lemma OrderStarts(s: seq<Extent>, order: seq<nat>, i: nat, j: nat)
    requires IsOrder(s, order) && i <= j < |s|
    ensures s[order[i]].start <= s[order[j]].start
  {
    SortLessIsStrictWeak(s);
    if i < j {
      assert Before(SortLess(s), order[i], order[j]);
    }
  }

  lemma RefOrderStarts(refs: seq<SymbolRef>, refOrder: seq<nat>, i: nat, j: nat)
    requires IsRefOrder(refs, refOrder) && i <= j < |refs|
    ensures refs[refOrder[i]].info.start <= refs[refOrder[j]].info.start
  {
    if i < j {
      assert Before(RefLess(refs), refOrder[i], refOrder[j]);
    }
  }

  /** Places one reference, given the stack of all instances that could cover it. */
  method PlaceRef(
      insts: seq<SymbolInstance>, s: seq<Extent>, order: seq<nat>, m: nat, stack: seq<nat>, fallback: nat,
      ref: SymbolRef)
    requires IsOrder(s, order) && m <= |s| == |insts| && IsSwept(s, order, m, stack) && fallback < |s|
    requires forall j | 0 < j < m :: s[order[j]].start <= ref.info.start
    requires forall j | m <= j < |s| :: s[order[j]].start > ref.info.start
    modifies ref
    ensures IsPlaced(s, order, fallback, Places(insts), FoldedFlags(insts), ref)
  {
    var owner := FindOwner(s, order, m, stack, ref.Range());
    NoLaterCovering(s, order, ref.Range(), m, |s|);
    var o: nat := if owner >= 0 then owner else fallback;
    ref.dfsEnter := insts[o].dfsEnter + 1;
    ref.nestingLevel := insts[o].nestingLevel + 1;
    ref.foldDepth := insts[o].foldDepth + FoldStep(insts[o].info.folded);
    assert IsOwner(s, order, fallback, ref.Range(), o);
    assert Places(insts)[o] == insts[o].Place();
  }

  /** Drains every reference that starts strictly before instance `m`, or all of them at the end. */
  method PlaceBefore(
      insts: seq<SymbolInstance>, s: seq<Extent>, order: seq<nat>, m: nat, stack: seq<nat>, fallback: nat,
      refs: seq<SymbolRef>, refOrder: seq<nat>, ri0: nat)
    returns (ri: nat)
    requires IsOrder(s, order) && m <= |s| == |insts| && IsSwept(s, order, m, stack) && fallback < |s|
    requires IsRefOrder(refs, refOrder) && Distinct(refs) && ri0 <= |refs|
    requires LeftStartsAfter(s, order, m, refs, refOrder, ri0)
    requires PlacedSoFar(s, order, fallback, Places(insts), FoldedFlags(insts), refs, refOrder, ri0)
    modifies refs
    ensures ri0 <= ri <= |refs|
    ensures PlacedSoFar(s, order, fallback, Places(insts), FoldedFlags(insts), refs, refOrder, ri)
    ensures LeftStartsAfter(s, order, m, refs, refOrder, ri)
    ensures m < |s| ==> LeftStartsAfter(s, order, m + 1, refs, refOrder, ri)
    ensures m == |s| ==> ri == |refs|
  {
    hide IsPlaced, IsSwept;
    ri := ri0;
    while ri < |refs| && (m == |s| || refs[refOrder[ri]].info.start < s[order[m]].start)
      invariant ri0 <= ri <= |refs|
      invariant PlacedSoFar(s, order, fallback, Places(insts), FoldedFlags(insts), refs, refOrder, ri)
    {
      var ref := refs[refOrder[ri]];
      forall j | m <= j < |s| ensures s[order[j]].start > ref.info.start {
        OrderStarts(s, order, m, j);
      }
      assert forall k | 0 <= k < ri :: refs[refOrder[k]] != ref;
      PlaceRef(insts, s, order, m, stack, fallback, ref);
      ri := ri + 1;
    }
    if m < |s| {
      forall j, k | 0 < j < m + 1 && ri <= k < |refs| ensures s[order[j]].start <= refs[refOrder[k]].info.start {
        RefOrderStarts(refs, refOrder, ri, k);
      }
    }
  }

  /** Every reference ends up inside the innermost instance that covers it, or at the first root. */
  method NumberRefs(insts: seq<SymbolInstance>, s: seq<Extent>, order: seq<nat>, roots: seq<nat>, refs: seq<SymbolRef>)
    requires IsOrder(s, order) && |s| == |insts| && Distinct(refs)
    requires forall i | 0 <= i < |roots| :: roots[i] < |s|
    modifies refs
    ensures |roots| > 0 ==>
              forall k | 0 <= k < |refs| :: IsPlaced(s, order, roots[0], Places(insts), FoldedFlags(insts), refs[k])
  {
    if |refs| == 0 || |roots| == 0 {
      return;
    }
    var fallback := roots[0];
    var refOrder := SliceStable(|refs|, RefLess(refs));
    var stack: seq<nat> := [];
    var ri := 0;
    for m := 0 to |order|
      invariant IsSwept(s, order, m, stack) && (m > 0 ==> |stack| > 0)
      invariant ri <= |refs| && LeftStartsAfter(s, order, m, refs, refOrder, ri)
      invariant PlacedSoFar(s, order, fallback, Places(insts), FoldedFlags(insts), refs, refOrder, ri)
    {
      if |stack| > 0 {
        ri := PlaceBefore(insts, s, order, m, stack, fallback, refs, refOrder, ri);
      }
      stack := MakeRoom(s, order, m, stack);
      stack := stack + [order[m]];
    }
    ri := PlaceBefore(insts, s, order, |s|, stack, fallback, refs, refOrder, ri);
    forall k | 0 <= k < |refs| ensures IsPlaced(s, order, fallback, Places(insts), FoldedFlags(insts), refs[k]) {
      assert refOrder[Pos(refOrder, k)] == k;
    }
  }
}
