/** What the index's tables hold of one file's calls while they are made. */
module Ledger {
  import opened Store
  import opened StoreInvariant
  import opened StoreSteps
  import opened Shape
  import opened Syntax
  import opened Literals
  import opened Effects

  /** The tables, the file, and the scope in which the file's symbols are declared. */
  datatype Ledger = Ledger(scope: Inst -> Scope, file: int, byKey: map<SymbolKey, int>, table: InstanceTable)

  function LedgerOf(p: Project, scope: Inst -> Scope, file: int): Ledger {
    Ledger(scope, file, p.symbols.byKey, p.instances)
  }

  function NameKey(l: Ledger, x: Inst): SymbolKey {
    SymbolKey(x.name, l.scope(x))
  }

  /** The key under which the index finds the instance again. */
  function KeyOf(l: Ledger, x: Inst): InstanceKey
    requires NameKey(l, x) in l.byKey
  {
    InstanceKey(l.byKey[NameKey(l, x)], l.file, x.start, x.end)
  }

  /** The instance has been recorded. */
  predicate IsIn(l: Ledger, x: Inst) {
    && NameKey(l, x) in l.byKey && KeyOf(l, x) in l.table.idByKey
    && l.table.idByKey[KeyOf(l, x)] in l.table.slots && l.table.slots[l.table.idByKey[KeyOf(l, x)]].file == l.file
  }

  /** The id that the index has given it. */
  function IdOf(l: Ledger, x: Inst): int
    requires IsIn(l, x)
  {
    l.table.idByKey[KeyOf(l, x)]
  }

  function SlotOf(l: Ledger, x: Inst): Slot
    requires IsIn(l, x)
  {
    l.table.slots[IdOf(l, x)]
  }

  // ------------------------------------------------------------------
  // What is kept

  /** An extent around no literal that the calls add. */
  ghost predicate IsBeside(adds: seq<Call>, start: int, end: int) {
    forall x | x in Insts(adds) && x.kind == Literal :: !(start <= x.start && x.end <= end)
  }

  ghost predicate IsKeyOf(l: Ledger, done: seq<Call>, x: Inst, key: InstanceKey) {
    x in Insts(done) && IsIn(l, x) && KeyOf(l, x) == key
  }

  /** The slot is that of the call's instance, and its owner's is stated for it. */
  ghost predicate IsStatedFor(l: Ledger, done: seq<Call>, a: Call, slot: Slot) {
    && a in done && a.owner.Some? && IsIn(l, a.inst) && IsIn(l, a.owner.value)
    && SlotOf(l, a.inst) == slot && slot in l.table.stated && SlotOf(l, a.owner.value).idx == l.table.stated[slot]
  }

  ghost predicate IsAccountedFor(l: Ledger, adds: seq<Call>, done: seq<Call>, key: InstanceKey) {
    (exists x :: IsKeyOf(l, done, x, key)) || IsBeside(adds, key.start, key.end)
  }

  ghost predicate IsOwned(l: Ledger, done: seq<Call>, slot: Slot) {
    exists a :: IsStatedFor(l, done, a, slot)
  }

  /**
   After the calls `done`, of the calls `adds` of the file: all of them are recorded, everything
   else recorded of the file keeps apart, and the stated parents are exactly the owners.
   */
  ghost predicate Records(l: Ledger, adds: seq<Call>, done: seq<Call>) {
    && (forall x | x in Insts(done) :: IsIn(l, x))
    && (forall key | key in l.table.idByKey && key.fileID == l.file :: IsAccountedFor(l, adds, done, key))
    && (forall slot | slot in l.table.stated && slot.file == l.file :: IsOwned(l, done, slot))
    && (forall a | a in done && a.owner.Some? :: IsIn(l, a.inst) && IsStatedFor(l, done, a, SlotOf(l, a.inst)))
  }

  // ------------------------------------------------------------------
  // Growth

  predicate Extends<K, V(==)>(m: map<K, V>, n: map<K, V>) {
    forall k | k in m :: k in n && n[k] == m[k]
  }

  ghost predicate Grown(l: Ledger, m: Ledger) {
    && m.scope == l.scope && m.file == l.file && Extends(l.byKey, m.byKey) && Extends(l.table.idByKey, m.table.idByKey)
    && Extends(l.table.slots, m.table.slots) && Extends(l.table.stated, m.table.stated)
  }

  lemma GrownKeepsInst(l: Ledger, m: Ledger, x: Inst)
    requires Grown(l, m) && IsIn(l, x)
    ensures IsIn(m, x) && KeyOf(m, x) == KeyOf(l, x) && SlotOf(m, x) == SlotOf(l, x) && IdOf(m, x) == IdOf(l, x)
  {}

  lemma GrownKeepsStated(l: Ledger, m: Ledger, done: seq<Call>, more: seq<Call>, a: Call, slot: Slot)
    requires Grown(l, m) && done <= more && IsStatedFor(l, done, a, slot)
    ensures IsStatedFor(m, more, a, slot)
  {
    GrownKeepsInst(l, m, a.inst);
    GrownKeepsInst(l, m, a.owner.value);
  }

  lemma GrownKeepsKey(l: Ledger, m: Ledger, adds: seq<Call>, done: seq<Call>, more: seq<Call>, key: InstanceKey)
    requires Grown(l, m) && done <= more && IsAccountedFor(l, adds, done, key)
    ensures IsAccountedFor(m, adds, more, key)
  {
    hide IsBeside, IsIn;
    if x :| IsKeyOf(l, done, x, key) {
      GrownKeepsInst(l, m, x);
      var a :| a in done && a.inst == x;
      assert a in more;
      assert IsKeyOf(m, more, x, key);
    }
  }

  /** What has come in on the way from `l` to `m` is accounted for. */
  ghost predicate NewAccountedFor(l: Ledger, m: Ledger, adds: seq<Call>, more: seq<Call>) {
    && (forall key | key in m.table.idByKey && key !in l.table.idByKey && key.fileID == m.file ::
          IsAccountedFor(m, adds, more, key))
    && (forall slot | slot in m.table.stated && slot !in l.table.stated && slot.file == m.file ::
          IsOwned(m, more, slot))
  }

  lemma GrownRecords(l: Ledger, m: Ledger, adds: seq<Call>, done: seq<Call>, more: seq<Call>)
    requires Records(l, adds, done) && Grown(l, m) && NewAccountedFor(l, m, adds, more)
    requires more == done || (|more| == |done| + 1 && more[..|done|] == done)
    requires |more| > |done| ==> var a := more[|done|];
             IsIn(m, a.inst) && (a.owner.Some? ==> IsStatedFor(m, more, a, SlotOf(m, a.inst)))
    ensures Records(m, adds, more)
  {
    hide IsIn, IsBeside, IsStatedFor, IsAccountedFor;
    assert done <= more;
    forall x | x in Insts(more) ensures IsIn(m, x) {
      if x in Insts(done) {
        GrownKeepsInst(l, m, x);
      }
    }
    forall key | key in m.table.idByKey && key.fileID == m.file ensures IsAccountedFor(m, adds, more, key) {
      if key in l.table.idByKey {
        GrownKeepsKey(l, m, adds, done, more, key);
      }
    }
    forall slot | slot in m.table.stated && slot.file == m.file ensures IsOwned(m, more, slot) {
      if slot in l.table.stated {
        var a :| IsStatedFor(l, done, a, slot);
        GrownKeepsStated(l, m, done, more, a, slot);
      }
    }
    forall a | a in more && a.owner.Some? ensures IsIn(m, a.inst) && IsStatedFor(m, more, a, SlotOf(m, a.inst)) {
      if a in done {
        GrownKeepsInst(l, m, a.inst);
        GrownKeepsStated(l, m, done, more, a, SlotOf(l, a.inst));
      }
    }
  }

  // ------------------------------------------------------------------
  // A call to AddSymbol

  /** The key of the instance that a call is about, in the tables it leaves. */
  function CallKey(p: Project, q: Project, c: SymbolCall): InstanceKey
    requires IsObject(p.objects, c.fileId) && SymbolKey(c.name, c.scope) in q.symbols.byKey
  {
    var (start, end) := Recorded(c, |p.objects[c.fileId - 1].content|);
    InstanceKey(q.symbols.byKey[SymbolKey(c.name, c.scope)], c.fileId, start, end)
  }

  /** What a call that returns `id` leaves in the tables: one key and one slot, new unless the key was known. */
  ghost predicate IsCalled(p: Project, q: Project, c: SymbolCall, id: int)
    requires IsObject(p.objects, c.fileId)
  {
    && SymbolKey(c.name, c.scope) in q.symbols.byKey && Extends(p.symbols.byKey, q.symbols.byKey)
    && var key := CallKey(p, q, c);
       if key in p.instances.idByKey then id == p.instances.idByKey[key] && q.instances == p.instances
       else
         var slot := Slot(c.fileId, |p.objects[c.fileId - 1].insts|);
         && id !in p.instances.slots && slot !in p.instances.stated
         && q.instances.idByKey == p.instances.idByKey[key := id] && q.instances.slots == p.instances.slots[id := slot]
         && IsStatedParent(p.instances, q.instances, c, slot)
  }

  lemma SlotIsNotStated(p: Project, f: int)
    requires Invariant(p) && IsObject(p.objects, f)
    ensures Slot(f, |p.objects[f - 1].insts|) !in p.instances.stated
  {
    hide SymbolsAgree, AllNamed, FilesAgree, ModulesAgree, EntriesAgree, LookupAgrees;
    NothingTakenBeyond(p, f, |p.objects[f - 1].insts|);
  }

  lemma SymbolIsNamed(t: SymbolTable, path: string, c: SymbolCall)
    ensures var (named, symbolID) := NamedSymbol(t, path, c);
            && Extends(t.byKey, named.byKey) && SymbolKey(c.name, c.scope) in named.byKey
            && named.byKey[SymbolKey(c.name, c.scope)] == symbolID
  {}

  lemma AddSymbolIsCalled(p: Project, c: SymbolCall)
    requires Invariant(p) && Accepts(p, c)
    ensures IsCalled(p, AddSymbol(p, c).project, c, AddSymbol(p, c).instanceID)
  {
    hide SymbolsAgree, AllNamed, FilesAgree, ModulesAgree, SlotsAgree, StatedAgrees, EntriesAgree, LookupAgrees,
      WithInstance, AcceptsParent, NamedSymbol;
    var o := p.objects[c.fileId - 1];
    SymbolIsNamed(p.symbols, p.files.pathByID[c.fileId], c);
    ParentComesFirst(p, c, Slot(c.fileId, |o.insts|));
    NextIDIsFree(p.instances, p.objects, p.symbols, p.files.pathByID.Keys);
    SlotIsNotStated(p, c.fileId);
  }

  lemma CalledGrows(p: Project, q: Project, c: SymbolCall, id: int, scope: Inst -> Scope, f: int)
    requires IsObject(p.objects, c.fileId) && IsCalled(p, q, c, id)
    ensures Grown(LedgerOf(p, scope, f), LedgerOf(q, scope, f))
  {}
}
