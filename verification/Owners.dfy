/**
 Two ways to say which declaration a reference is made in: the smallest declared extent
 around it, as the list of reference names has it, and the owner in the numbering.
 */
module Owners {
  import opened StableOrder
  import opened Containment
  import opened DerivedTree
  import opened Store
  import opened StoreInvariant
  import opened Shape
  import opened Runs
  import opened Declarations
  import opened Finalised

  /** Larger than any width of an entry. */
  const MAX_INT: int := 0x7FFF_FFFF_FFFF_FFFF

  predicate EntryCovers(e: Entry, r: Range) {
    e.start <= r.start && e.end >= r.end
  }

  /** The first of the narrowest entries around `r`, or -1. */
  ghost predicate IsSmallest(entries: seq<Entry>, r: Range, best: int) {
    if best < 0 then
      best == -1 && forall i | 0 <= i < |entries| && EntryCovers(entries[i], r) :: Width(entries[i]) >= MAX_INT
    else
      && best < |entries| && EntryCovers(entries[best], r) && Width(entries[best]) < MAX_INT
      && forall i | 0 <= i < |entries| && EntryCovers(entries[i], r) ::
           Width(entries[best]) <= Width(entries[i]) && (i < best ==> Width(entries[best]) < Width(entries[i]))
  }

  function Width(e: Entry): int {
    e.end - e.start
  }

  /** The scan that finds the declaration a reference is attributed to. */
  method SmallestCovering(entries: seq<Entry>, r: Range) returns (best: int)
    ensures IsSmallest(entries, r, best)
  {
    best := -1;
    var bestRange := MAX_INT;
    for idx := 0 to |entries|
      invariant IsSmallest(entries[..idx], r, best)
      invariant bestRange == if best < 0 then MAX_INT else Width(entries[best])
    {
      var inst := entries[idx];
      if inst.start <= r.start && inst.end >= r.end {
        var instRange := inst.end - inst.start;
        if instRange < bestRange {
          bestRange := instRange;
          best := idx;
        }
      }
    }
    assert entries[..|entries|] == entries;
  }

  /** Entry `i` of file `f` describes the instance in slot `k`. */
  ghost predicate Describes(p: Project, f: int, i: int, k: int) {
    && 0 <= i < |Listed(p.instances.byFile, f)| && IsObject(p.objects, f) && 0 <= k < |p.objects[f - 1].insts|
    && var e := Listed(p.instances.byFile, f)[i];
       && e.instanceID in p.instances.slots && p.instances.slots[e.instanceID] == Slot(f, k)
       && p.objects[f - 1].insts[k].start == e.start && p.objects[f - 1].insts[k].end == e.end
  }

  lemma SlotOfEntry(p: Project, f: int, i: nat) returns (k: nat)
    requires Invariant(p) && i < |Listed(p.instances.byFile, f)|
    ensures Describes(p, f, i, k) && IsTaken(p.instances, Slot(f, k))
  {
    hide SymbolsAgree, AllNamed, FilesAgree, ModulesAgree, StatedAgrees, LookupAgrees;
    var e := Listed(p.instances.byFile, f)[i];
    assert EntryAgrees(p.instances.idByKey, p.symbols, f, e);
    var slot := p.instances.slots[e.instanceID];
    assert KeyAt(p.objects, slot) == KeyOfEntry(e);
    k := slot.idx;
  }

  lemma EntryOfSlot(p: Project, f: int, k: nat) returns (i: nat)
    requires Invariant(p) && IsObject(p.objects, f) && k < |p.objects[f - 1].insts| && IsTaken(p.instances, Slot(f, k))
    ensures Describes(p, f, i, k)
  {
    hide SymbolsAgree, AllNamed, FilesAgree, ModulesAgree, StatedAgrees, LookupAgrees;
    var id :| id in p.instances.slots && p.instances.slots[id] == Slot(f, k);
    assert IsRecorded(p.instances, p.objects, p.symbols, p.files.pathByID.Keys, id);
    var key := KeyAt(p.objects, Slot(f, k));
    assert HasEntry(p.instances.byFile, key);
    i :| 0 <= i < |Listed(p.instances.byFile, f)| && KeyOfEntry(Listed(p.instances.byFile, f)[i]) == key;
    assert EntryAgrees(p.instances.idByKey, p.symbols, f, Listed(p.instances.byFile, f)[i]);
  }

  /** What the extents say of declared and other instances. */
  lemma DeclaredInsideOthers(p: Project, f: int, w: nat, k: nat)
    requires Sound(p) && DeclarationsOnly(p) && f in p.files.pathByID && LengthFits(|p.objects[f - 1].content|)
    requires IsObject(p.objects, f) && w < |p.objects[f - 1].insts| && k < |p.objects[f - 1].insts|
    requires !IsTaken(p.instances, Slot(f, w)) && IsTaken(p.instances, Slot(f, k))
    ensures Contains(FileExtents(p, f)[w], FileExtents(p, f)[k])
  {
    assert FileIsShaped(p, f);
    assert IsWhole(p.instances, f, p.objects[f - 1], w);
    WholeHasExtent(p, f, w);
    TakenIsDeclared(p, f, k);
    FittingLengthCovers(|p.objects[f - 1].content|);
  }

  /** The innermost cover of a reference that some declaration covers is a declaration. */
  lemma InnermostIsDeclared(p: Project, f: int, r: Range, k: nat) returns (o: nat)
    requires Sound(p) && DeclarationsOnly(p) && f in p.files.pathByID && IsObject(p.objects, f)
    requires LengthFits(|p.objects[f - 1].content|)
    requires k < |p.objects[f - 1].insts| && IsTaken(p.instances, Slot(f, k)) && Covers(FileExtents(p, f)[k], r)
    ensures o < |p.objects[f - 1].insts| && IsTaken(p.instances, Slot(f, o)) && Covers(FileExtents(p, f)[o], r)
    ensures var s := FileExtents(p, f); o == LastCovering(s, OrderOf(s), r, |s|)
  {
    hide Sound, DeclarationsOnly, OrderOf, FileExtents;
    var s := FileExtents(p, f);
    var order := OrderOf(s);
    assert order[Pos(order, k)] == k;
    o := LastCovering(s, order, r, |s|);
    if !IsTaken(p.instances, Slot(f, o)) {
      DeclaredInsideOthers(p, f, o, k);
      ContainerComesFirst(s, order, o, k);
    }
  }

  /** In well-nested extents of one rank, the innermost cover is the narrowest. */
  lemma InnermostIsNarrowest(s: seq<Extent>, order: seq<nat>, r: Range, o: nat, k: nat)
    requires IsOrder(s, order) && IsLaminar(s) && r.start < r.end && o < |s| && k < |s|
    requires o == LastCovering(s, order, r, |s|) && Covers(s[k], r) && s[o].rank == s[k].rank
    ensures k == o || s[o].end - s[o].start < s[k].end - s[k].start
  {
    if k != o {
      assert order[Pos(order, k)] == k;
      assert !Disjoint(s[k], s[o]);
      if Contains(s[o], s[k]) {
        ContainerComesFirst(s, order, o, k);
      }
    }
  }

  /**
   For well-nested extents, a non-empty reference inside some declaration is attributed to
   the very instance that owns it in the numbering.
   */
  lemma SmallestIsOwner(p: Project, f: int, r: Range, i: nat, best: int)
    requires Sound(p) && DeclarationsOnly(p) && f in p.files.pathByID && IsObject(p.objects, f)
    requires LengthFits(|p.objects[f - 1].content|) && IsLaminar(FileExtents(p, f)) && r.start < r.end
    requires i < |Listed(p.instances.byFile, f)| && EntryCovers(Listed(p.instances.byFile, f)[i], r)
    requires IsSmallest(Listed(p.instances.byFile, f), r, best)
    ensures var s := FileExtents(p, f); best >= 0 && Describes(p, f, best, LastCovering(s, OrderOf(s), r, |s|))
  {
    hide Shaped, DeclarationsOnly, OrderOf, IsLaminar, Invariant, LastCovering;
    var s := FileExtents(p, f);
    var k := SlotOfEntry(p, f, i);
    var o := InnermostIsDeclared(p, f, r, k);
    var j := EntryOfSlot(p, f, o);
    TakenIsDeclared(p, f, o);
    assert EntryCovers(Listed(p.instances.byFile, f)[j], r);
    assert best >= 0;
    var b := SlotOfEntry(p, f, best);
    TakenIsDeclared(p, f, b);
    InnermostIsNarrowest(s, OrderOf(s), r, o, b);
  }
}
