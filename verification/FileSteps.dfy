/** A file's calls to AddSymbol, and those of others, keep the index's tables in step with the file's calls. */
module FileSteps {
  import opened Store
  import opened StoreInvariant
  import opened Syntax
  import opened Literals
  import opened Namesakes
  import opened LiteralTree
  import opened Calls
  import opened Effects
  import opened Ledger

  // ------------------------------------------------------------------
  // One call

  /** The call declares the instance in the file, under the id that its owner was given. */
  predicate Asks(l: Ledger, c: SymbolCall, a: Call) {
    && c.fileId == l.file && SymbolKey(c.name, c.scope) == NameKey(l, a.inst)
    && c.start == a.inst.start && c.end == a.inst.end
    && (a.owner.None? ==> c.parent == NO_PARENT)
    && (a.owner.Some? && IsIn(l, a.owner.value) ==> c.parent == IdOf(l, a.owner.value))
  }

  /** A call of another file, or one that states no parent and whose extent is around no literal. */
  ghost predicate KeepsApart(f: int, adds: seq<Call>, c: SymbolCall) {
    c.fileId == f ==> c.parent == NO_PARENT && IsBeside(adds, c.start, c.end)
  }

  /** Owners have been added, and a literal with an owner is new and has its range for itself. */
  ghost predicate IsInTurn(adds: seq<Call>, done: seq<Call>, a: Call) {
    a.owner.Some? ==>
      && a.inst.kind == Literal && a.inst in Insts(adds) && a.inst !in Insts(done) && a.owner.value in Insts(done)
      && Insts(done) <= Insts(adds)
      && forall y | y in Insts(adds) && y != a.inst :: (y.start, y.end) != (a.inst.start, a.inst.end)
  }

  lemma NoParentIsFree(p: Project)
    requires Invariant(p)
    ensures NO_PARENT !in p.instances.slots
  {
    hide SymbolsAgree, AllNamed, FilesAgree, ModulesAgree, StatedAgrees, EntriesAgree, LookupAgrees;
    forall id | id in p.instances.slots ensures id > NO_PARENT {
      assert IsRecorded(p.instances, p.objects, p.symbols, p.files.pathByID.Keys, id);
    }
  }

  /** A literal with an owner is not recorded yet. */
  lemma OwnedIsNew(p: Project, q: Project, c: SymbolCall, id: int, l: Ledger, adds: seq<Call>, done: seq<Call>, a: Call)
    requires l == LedgerOf(p, l.scope, l.file) && Records(l, adds, done) && Asks(l, c, a) && a.owner.Some?
    requires IsInTurn(adds, done, a) && IsObject(p.objects, c.fileId) && IsCalled(p, q, c, id)
    requires a.inst.end <= |p.objects[c.fileId - 1].content|
    ensures CallKey(p, q, c) !in p.instances.idByKey
  {
    hide Insts;
    forall key | key in l.table.idByKey && key.fileID == l.file
      ensures (key.start, key.end) != (a.inst.start, a.inst.end)
    {
      assert IsAccountedFor(l, adds, done, key);
      if x :| IsKeyOf(l, done, x, key) {
        assert x in Insts(adds) && x != a.inst;
      }
    }
  }

  lemma KnownIdHasSlot(p: Project, key: InstanceKey)
    requires Invariant(p) && key in p.instances.idByKey
    ensures p.instances.idByKey[key] in p.instances.slots
    ensures p.instances.slots[p.instances.idByKey[key]].file == key.fileID
  {
    hide SymbolsAgree, AllNamed, FilesAgree, ModulesAgree, StatedAgrees, EntriesAgree, LookupAgrees;
  }

  /** After its call the instance is recorded, under the id that was returned. */
  lemma CallIsIn(p: Project, c: SymbolCall, l: Ledger, a: Call)
    requires Invariant(p) && Accepts(p, c) && l == LedgerOf(p, l.scope, l.file) && Asks(l, c, a)
    requires a.inst.end <= |p.objects[c.fileId - 1].content|
    ensures var m := LedgerOf(AddSymbol(p, c).project, l.scope, l.file);
            && IsCalled(p, AddSymbol(p, c).project, c, AddSymbol(p, c).instanceID) && IsIn(m, a.inst)
            && KeyOf(m, a.inst) == CallKey(p, AddSymbol(p, c).project, c)
            && IdOf(m, a.inst) == AddSymbol(p, c).instanceID
  {
    hide Invariant, AddSymbol, IsStatedParent;
    var q := AddSymbol(p, c).project;
    AddSymbolIsCalled(p, c);
    if CallKey(p, q, c) in p.instances.idByKey {
      KnownIdHasSlot(p, CallKey(p, q, c));
    }
  }

  lemma MarkedStep(p: Project, c: SymbolCall, l: Ledger, adds: seq<Call>, done: seq<Call>, a: Call)
    requires Invariant(p) && Accepts(p, c) && l == LedgerOf(p, l.scope, l.file) && Asks(l, c, a)
    requires Records(l, adds, done) && IsInTurn(adds, done, a) && a.inst.end <= |p.objects[c.fileId - 1].content|
    ensures Records(LedgerOf(AddSymbol(p, c).project, l.scope, l.file), adds, done + [a])
  {
    hide Invariant, AddSymbol, Insts, IsBeside;
    var q, more := AddSymbol(p, c).project, done + [a];
    var m := LedgerOf(q, l.scope, l.file);
    CallIsIn(p, c, l, a);
    CalledGrows(p, q, c, AddSymbol(p, c).instanceID, l.scope, l.file);
    NoParentIsFree(p);
    InstOf(more, a);
    forall key | key in m.table.idByKey && key !in l.table.idByKey ensures IsAccountedFor(m, adds, more, key) {
      assert IsKeyOf(m, more, a.inst, key);
    }
    if a.owner.Some? {
      OwnedIsNew(p, q, c, AddSymbol(p, c).instanceID, l, adds, done, a);
      GrownKeepsInst(l, m, a.owner.value);
      assert IsStatedFor(m, more, a, SlotOf(m, a.inst));
      forall slot | slot in m.table.stated && slot !in l.table.stated ensures IsOwned(m, more, slot) {
        assert slot == SlotOf(m, a.inst);
      }
    }
    GrownRecords(l, m, adds, done, more);
  }

  lemma ClampedIsBeside(adds: seq<Call>, c: SymbolCall, length: nat)
    requires IsBeside(adds, c.start, c.end) && forall x | x in Insts(adds) :: LiesIn(x, 0, length)
    ensures var (start, end) := Recorded(c, length); IsBeside(adds, start, end)
  {}

  lemma UnmarkedStep(p: Project, c: SymbolCall, l: Ledger, adds: seq<Call>, done: seq<Call>)
    requires Invariant(p) && Accepts(p, c) && l == LedgerOf(p, l.scope, l.file) && KeepsApart(l.file, adds, c)
    requires Records(l, adds, done)
    requires c.fileId == l.file ==> forall x | x in Insts(adds) :: LiesIn(x, 0, |p.objects[c.fileId - 1].content|)
    ensures Records(LedgerOf(AddSymbol(p, c).project, l.scope, l.file), adds, done)
  {
    hide Invariant, AddSymbol, Insts, IsBeside, LiesIn;
    var q := AddSymbol(p, c).project;
    var m := LedgerOf(q, l.scope, l.file);
    AddSymbolIsCalled(p, c);
    CalledGrows(p, q, c, AddSymbol(p, c).instanceID, l.scope, l.file);
    NoParentIsFree(p);
    if c.fileId == l.file {
      ClampedIsBeside(adds, c, |p.objects[c.fileId - 1].content|);
    }
    GrownRecords(l, m, adds, done, done);
  }

  /** The calls of a well-nested file come in turn, in whatever order with owners first. */
  lemma FileIsInTurn(decls: seq<Decl>, pkg: string, lo: int, hi: int, made: seq<Call>, n: nat)
    requires FileNested(decls, lo, hi) && IsOrderOf(made, FileAdds(decls, pkg)) && n < |made|
    ensures made[n] in FileAdds(decls, pkg) && IsInTurn(FileAdds(decls, pkg), made[..n], made[n])
  {
    hide FileNested, FileAdds, Insts, OwnersFirst;
    var adds, a := FileAdds(decls, pkg), made[n];
    SameCalls(made, adds);
    if a.owner.Some? {
      OwnedFollowsName(decls, pkg, lo, hi, a);
      InstOf(adds, a);
      OwnerIsBefore(made, n);
      LiteralIsNew(decls, pkg, lo, hi, made, n);
      InstsAmong(made[..n], adds);
      forall y | y in Insts(adds) && y != a.inst ensures (y.start, y.end) != (a.inst.start, a.inst.end) {
        OwnedRangeIsSole(decls, pkg, lo, hi, a, y);
      }
    }
  }

  lemma InstsAmong(some: seq<Call>, all: seq<Call>)
    requires forall a | a in some :: a in all
    ensures Insts(some) <= Insts(all)
  {}

  /** Only which calls were made counts, not in which order. */
  lemma RecordsInAnyOrder(l: Ledger, adds: seq<Call>, made: seq<Call>)
    requires Records(l, adds, made) && forall a :: a in made <==> a in adds
    ensures Records(l, adds, adds)
  {
    hide IsIn, IsBeside, Insts;
    InstsAmong(made, adds);
    InstsAmong(adds, made);
    forall key | key in l.table.idByKey && key.fileID == l.file ensures IsAccountedFor(l, adds, adds, key) {
      assert IsAccountedFor(l, adds, made, key);
      if x :| IsKeyOf(l, made, x, key) {
        assert IsKeyOf(l, adds, x, key);
      }
    }
    forall slot | slot in l.table.stated && slot.file == l.file ensures IsOwned(l, adds, slot) {
      var a :| IsStatedFor(l, made, a, slot);
      assert IsStatedFor(l, adds, a, slot);
    }
  }
}
