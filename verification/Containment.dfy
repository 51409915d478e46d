/**
 Which instance contains which: the range-and-kind predicate, the outermost-first
 order, and the parentage that a quadratic scan would derive from them.
 */
module Containment {
  import opened StableOrder

  datatype SymbolKind =
    | Unspecified | Function | File | Module | Directory | Type | Data | Macro | Field

  /** Of two instances with one range, the one with the smaller rank contains the other. */
  function KindRank(kind: SymbolKind): nat {
    match kind
    case Module => 0
    case Directory => 1
    case File => 2
    case _ => 3
  }

  /** What containment reads of an instance. Nothing says start <= end. */
  datatype Extent = Extent(start: int, end: int, rank: nat)

  /** A byte range, such as a reference's token. */
  datatype Range = Range(start: int, end: int)

  predicate Contains(c: Extent, x: Extent) {
    if c.start > x.start || x.end > c.end then false
    else if c.start == x.start && c.end == x.end then c.rank < x.rank
    else true
  }

  /** Equal ranges count here, unlike for instances. */
  predicate Covers(c: Extent, r: Range) {
    c.start <= r.start && r.end <= c.end
  }

  /** The comparison of the outermost-first sort. */
  predicate OutermostFirst(a: Extent, b: Extent) {
    if a.start != b.start then a.start < b.start
    else if a.end != b.end then a.end > b.end
    else a.rank < b.rank
  }

  function SortLess(s: seq<Extent>): (nat, nat) -> bool {
    (a: nat, b: nat) => a < |s| && b < |s| && OutermostFirst(s[a], s[b])
  }

  ghost predicate IsOrder(s: seq<Extent>, order: seq<nat>) {
    IsStableOrder(|s|, SortLess(s), order)
  }

  lemma SortLessIsStrictWeak(s: seq<Extent>)
    ensures StrictWeak(|s|, SortLess(s))
  {}

  /** The outermost-first view of the instances. */
  function OrderOf(s: seq<Extent>): (order: seq<nat>)
    ensures IsOrder(s, order)
  {
    SortLessIsStrictWeak(s);
    SliceStable(|s|, SortLess(s))
  }

  lemma ContainsLaws(a: Extent, b: Extent, c: Extent)
    ensures !Contains(a, a)
    ensures Contains(a, b) && Contains(b, c) ==> Contains(a, c)
    ensures Contains(a, b) ==> OutermostFirst(a, b)
    ensures Contains(a, b) ==> !OutermostFirst(b, a)
  {}

  /**
   The step that makes one pass enough: if `p` contains `x` but not something
   sorted between them, that something contains `x` too and is the closer one.
   */
  lemma BetweenContains(p: Extent, a: Extent, x: Extent)
    requires Contains(p, x) && !Contains(p, a)
    requires !OutermostFirst(a, p) && !OutermostFirst(x, a)
    ensures Contains(a, x)
  {}

  /** The same for a reference, which a range equal to its own covers. */
  lemma BetweenCovers(p: Extent, a: Extent, r: Range)
    requires Covers(p, r) && !Contains(p, a)
    requires !OutermostFirst(a, p) && a.start <= r.start
    ensures Covers(a, r)
  {}

  /** An instance that contains another stands before it in the order. */
  lemma ContainerComesFirst(s: seq<Extent>, order: seq<nat>, c: nat, x: nat)
    requires IsOrder(s, order) && c < |s| && x < |s| && Contains(s[c], s[x])
    ensures Pos(order, c) < Pos(order, x)
  {
    SortLessIsStrictWeak(s);
    PosIsBefore(|s|, SortLess(s), order, c, x);
  }

  // ------------------------------------------------------------------
  // The parentage a scan of everything would give.

  /** The last of the first `m` instances in sort order that contains `x`, or -1. */
  ghost function LastContainer(s: seq<Extent>, order: seq<nat>, x: nat, m: nat): (p: int)
    requires IsOrder(s, order) && x < |s| && m <= |s|
    ensures -1 <= p < |s|
    ensures p == -1 ==> forall k | 0 <= k < m :: !Contains(s[order[k]], s[x])
    ensures p >= 0 ==> Contains(s[p], s[x]) && Pos(order, p) < m
    ensures p >= 0 ==> forall k | Pos(order, p) < k < m :: !Contains(s[order[k]], s[x])
  {
    if m == 0 then -1
    else if Contains(s[order[m - 1]], s[x]) then
      (PosOfElement(s, order, m - 1); order[m - 1])
    else LastContainer(s, order, x, m - 1)
  }

  lemma PosOfElement(s: seq<Extent>, order: seq<nat>, k: nat)
    requires IsOrder(s, order) && k < |s|
    ensures Pos(order, order[k]) == k
  {
    SortLessIsStrictWeak(s);
  }

  /** `p` is the innermost instance containing `x`, or -1 when none does. */
  ghost predicate IsInnermost(s: seq<Extent>, order: seq<nat>, x: nat, p: int)
    requires IsOrder(s, order) && x < |s|
  {
    if p < 0 then p == -1 && forall c: nat | c < |s| :: !Contains(s[c], s[x])
    else
      && p < |s| && Contains(s[p], s[x])
      && forall c: nat | c < |s| && Contains(s[c], s[x]) :: Pos(order, c) <= Pos(order, p)
  }

  ghost function Derived(s: seq<Extent>, order: seq<nat>): (d: seq<int>)
    requires IsOrder(s, order)
    ensures |d| == |s|
    ensures forall x | 0 <= x < |s| :: -1 <= d[x] < |s|
  {
    seq(|s|, x requires 0 <= x < |s| => LastContainer(s, order, x, |s|))
  }

  lemma DerivedIsInnermost(s: seq<Extent>, order: seq<nat>, x: nat)
    requires IsOrder(s, order) && x < |s|
    ensures IsInnermost(s, order, x, Derived(s, order)[x])
  {
    forall c: nat | c < |s| && Contains(s[c], s[x])
      ensures Derived(s, order)[x] >= 0 && Pos(order, c) <= Pos(order, Derived(s, order)[x])
    {
      assert order[Pos(order, c)] == c;
    }
  }

  /** What the last covering instance of a reference is, by the same scan. */
  ghost function LastCovering(s: seq<Extent>, order: seq<nat>, r: Range, m: nat): (p: int)
    requires IsOrder(s, order) && m <= |s|
    ensures -1 <= p < |s|
    ensures p == -1 ==> forall k | 0 <= k < m :: !Covers(s[order[k]], r)
    ensures p >= 0 ==> Covers(s[p], r) && Pos(order, p) < m
    ensures p >= 0 ==> forall k | Pos(order, p) < k < m :: !Covers(s[order[k]], r)
  {
    if m == 0 then -1
    else if Covers(s[order[m - 1]], r) then
      (PosOfElement(s, order, m - 1); order[m - 1])
    else LastCovering(s, order, r, m - 1)
  }
}
