/**
 Which literals of a file have an owner, and that the others lie directly inside another
 instance with nothing else of the file coming between.
 */
module Attribution {
  import opened Entities
  import opened Syntax
  import opened Literals
  import opened LiteralCount
  import opened Namesakes
  import opened FileLiterals

  /** Added while walking the body of a function declaration. */
  predicate IsFromFunction(d: Decl, a: Call) {
    d.FuncDecl? && a in BodyAdds(d.body, d.fullName)
  }

  /** Added for the initialiser that name `i` of spec `j` has to itself. */
  predicate IsFromName(d: Decl, j: int, i: int, a: Call) {
    && d.ValueDecl? && 0 <= j < |d.specs| && IsClaimed(d.specs[j], i)
    && a in ClaimedAdds([d.specs[j].values[i]], NameInst(d.specs[j], d.specs[j].names[i]))
  }

  lemma FunctionLiteralIsPlaced(decls: seq<Decl>, pkg: string, lo: int, hi: int, k: nat, a: Call)
    requires FileNested(decls, lo, hi) && k < |decls| && IsFromFunction(decls[k], a)
    ensures a.owner == None && a in DeclAdds(decls[k], pkg)
    ensures IsSomewhereIn(Insts(FileAdds(decls, pkg)), a.inst)
  {
    hide Insts, FileNested, FileAdds, IsDirectlyIn, BodyAdds, AreNested;
    var d, all := decls[k], Insts(FileAdds(decls, pkg));
    var f := Inst(Declared, d.fullName, d.start, d.end);
    var some := Insts(DeclAdds(d, pkg));
    FileHolds(decls, pkg, lo, hi, k);
    BodyHasNoOwner(d.body, d.fullName, a);
    BodyIsPlaced(d.body, d.fullName, d.start + 1, d.end);
    WrappedIsPlaced(f, None, d.body, "", d.fullName);
    InstOf(BodyAdds(d.body, d.fullName), a);
    InstOf(DeclAdds(d, pkg), a);
    InstOf(DeclAdds(d, pkg), Call(f, None));
    assert LiesIn(a.inst, d.start + 1, d.end);
    assert !IsTop(some, "", a.inst);
    var p :| IsDirectlyIn(some, a.inst, p);
    forall y | y in all && y !in some ensures Avoids(y, d.start, d.end) {
      FileAvoids(decls, pkg, lo, hi, k, y);
    }
    StaysDirectlyIn(some, all, a.inst, p, d.start, d.end);
  }

  lemma NearValue(decls: seq<Decl>, pkg: string, lo: int, hi: int, k: nat, j: nat, i: nat, y: Inst)
    requires FileNested(decls, lo, hi) && k < |decls| && decls[k].ValueDecl? && j < |decls[k].specs|
    requires IsClaimed(decls[k].specs[j], i) && y in Insts(FileAdds(decls, pkg))
    ensures y in ValueInsts(decls[k].specs[j], i)
            || IsClear(y, decls[k].specs[j].values[i].start, decls[k].specs[j].values[i].end)
  {
    hide Insts, FileNested, FileAdds, SpecsAdds, SpecsLoose, ValueInsts, SpecInsts, SpecNested, DoneFits, SpecsStarts;
    var d, spec := decls[k], decls[k].specs[j];
    FileAvoids(decls, pkg, lo, hi, k, y);
    var done := SpecsStarts(d.specs);
    DoneFitsAll(d.specs, d.start, d.end, j);
    ValueFacts(spec, i);
    SpecLies(spec);
    if y in Insts(DeclAdds(d, pkg)) {
      InstsJoined(SpecsAdds(d.specs), SpecsLoose(d.specs, pkg, done));
      SpecsAvoid(d.specs, pkg, done, d.start, d.end, j, y);
      if y in SpecInsts(spec, pkg, done) {
        SpecClear(spec, pkg, done, i, y);
      }
    }
  }

  lemma {:induction false} SpecsHold(specs: seq<Spec>, pkg: string, done: set<int>, j: nat)
    requires j < |specs|
    ensures SpecInsts(specs[j], pkg, done) <= SpecsInsts(specs, pkg, done)
    decreases |specs|
  {
    hide SpecInsts, SpecsInsts;
    FirstAndRest(specs, pkg, done);
    if j > 0 {
      SpecsHold(specs[1..], pkg, done, j - 1);
    }
  }

  lemma ValueIsInFile(decls: seq<Decl>, pkg: string, lo: int, hi: int, k: nat, j: nat, i: nat)
    requires FileNested(decls, lo, hi) && k < |decls| && decls[k].ValueDecl? && j < |decls[k].specs|
    requires IsClaimed(decls[k].specs[j], i)
    ensures NameInst(decls[k].specs[j], decls[k].specs[j].names[i]) in Insts(FileAdds(decls, pkg))
    ensures ValueInsts(decls[k].specs[j], i) <= Insts(FileAdds(decls, pkg))
  {
    hide Insts, FileNested, FileAdds, SpecsAdds, SpecsLoose, SpecNested, DoneFits, SpecsStarts, NamesAdds, ClaimedAdds,
      LooseIn, NameInst;
    var d, spec := decls[k], decls[k].specs[j];
    var done := SpecsStarts(d.specs);
    FileHolds(decls, pkg, lo, hi, k);
    InstsJoined(SpecsAdds(d.specs), SpecsLoose(d.specs, pkg, done));
    SpecsHold(d.specs, pkg, done, j);
    DoneFitsAll(d.specs, d.start, d.end, j);
    NameIsAdded(spec, |spec.names|, i);
    LooseHolds(NodesOf(spec), pkg, done, |spec.annotation| + i);
    NodeIsSettled(spec, done, |spec.annotation| + i);
    ValueInTwoPasses(spec, pkg, done, i);
  }

  lemma ValueInTwoPasses(spec: Spec, pkg: string, done: set<int>, i: nat)
    requires IsClaimed(spec, i) && LitStartsIn(spec.values[i]) <= done
    ensures ValueInsts(spec, i) == Insts(ClaimedAdds([spec.values[i]], NameInst(spec, spec.names[i])))
                                   + Insts(LooseIn(spec.values[i], pkg, done))
  {
    hide Insts, LooseIn, ClaimedIn;
    var v := spec.values[i];
    OneNode(v);
    TwoPasses([v], NameInst(spec, spec.names[i]), pkg, done);
    assert [v][1..] == [] && LooseIn(v, pkg, done) + [] == LooseIn(v, pkg, done);
    assert LooseAdds([v], pkg, done) == LooseIn(v, pkg, done);
  }

  lemma {:induction false} NameIsAdded(spec: Spec, k: nat, i: nat)
    requires i < k <= |spec.names| && IsClaimed(spec, i)
    ensures NameInst(spec, spec.names[i]) in Insts(NamesAdds(spec, k))
    ensures Insts(ClaimedAdds([spec.values[i]], NameInst(spec, spec.names[i]))) <= Insts(NamesAdds(spec, k))
  {
    hide Insts, ClaimedAdds, NameInst;
    var before, name := NamesAdds(spec, k - 1), spec.names[k - 1];
    if name.isDeclared {
      var first, claimed := Call(NameInst(spec, name), None), ClaimedAdds([spec.values[k - 1]], NameInst(spec, name));
      InstsJoined(before + [first], claimed);
      InstsJoined(before, [first]);
      InstsOfOne(first);
    }
    if i < k - 1 {
      NameIsAdded(spec, k - 1, i);
    }
  }

  lemma {:induction false} LooseHolds(nodes: seq<Node>, pkg: string, done: set<int>, m: nat)
    requires m < |nodes|
    ensures Insts(LooseIn(nodes[m], pkg, done)) <= Insts(LooseAdds(nodes, pkg, done))
    decreases |nodes|
  {
    hide Insts, LooseIn;
    InstsJoined(LooseIn(nodes[0], pkg, done), LooseAdds(nodes[1..], pkg, done));
    if m > 0 {
      LooseHolds(nodes[1..], pkg, done, m - 1);
    }
  }

  /** A literal of an initialiser is owned by its name, or lies directly inside another instance. */
  lemma NameLiteralIsPlaced(decls: seq<Decl>, pkg: string, lo: int, hi: int, k: nat, j: nat, i: nat, a: Call)
    requires FileNested(decls, lo, hi) && k < |decls| && IsFromName(decls[k], j, i, a)
    ensures a.owner.None? ==> IsSomewhereIn(Insts(FileAdds(decls, pkg)), a.inst)
    ensures a.owner.Some? ==> a.inst.kind == Literal && a.inst.name == LitName(a.owner.value.name, a.inst.start)
    ensures a.owner.Some? ==> a.owner.value.kind == Declared
    ensures a.owner.Some? ==> a.owner.value in Insts(FileAdds(decls, pkg)) && a.owner.value.start < a.inst.start
  {
    hide Insts, FileNested, FileAdds, IsDirectlyIn, BodyAdds, SpecNested, SpecsNested, ClaimedAdds, IsNested, IsPlaced;
    var spec := decls[k].specs[j];
    var v, owner := spec.values[i], NameInst(spec, spec.names[i]);
    FileHolds(decls, pkg, lo, hi, k);
    SpecsOrder(decls[k].specs, decls[k].start, decls[k].end, j);
    ValueIsInFile(decls, pkg, lo, hi, k, j, i);
    ValueFacts(spec, i);
    NameLies(spec, i);
    OwnedOrInside([v], owner, v.start, v.end, a);
    ClaimedLie(v, owner);
    InstOf(ClaimedAdds([v], owner), a);
    if a.owner.None? {
      InnerLiteralIsPlaced(decls, pkg, lo, hi, k, j, i, a);
    }
  }

  lemma InnerLiteralIsPlaced(decls: seq<Decl>, pkg: string, lo: int, hi: int, k: nat, j: nat, i: nat, a: Call)
    requires FileNested(decls, lo, hi) && k < |decls| && IsFromName(decls[k], j, i, a) && a.owner.None?
    ensures IsSomewhereIn(Insts(FileAdds(decls, pkg)), a.inst)
  {
    hide Insts, FileNested, FileAdds, IsDirectlyIn, BodyAdds, SpecNested, SpecsNested, ClaimedAdds, IsNested, NameInst;
    var spec, all := decls[k].specs[j], Insts(FileAdds(decls, pkg));
    var v, owner, some := spec.values[i], NameInst(spec, spec.names[i]), ValueInsts(spec, i);
    FileHolds(decls, pkg, lo, hi, k);
    SpecsOrder(decls[k].specs, decls[k].start, decls[k].end, j);
    ValueFacts(spec, i);
    ValueIsInFile(decls, pkg, lo, hi, k, j, i);
    ValueInTwoPasses(spec, pkg, LitStartsIn(v), i);
    BodyIsPlaced([v], spec.names[i].fullName, v.start, v.end);
    OwnedOrInside([v], owner, v.start, v.end, a);
    InstOf(ClaimedAdds([v], owner), a);
    assert !IsTop(some, spec.names[i].fullName, a.inst);
    var p :| IsDirectlyIn(some, a.inst, p);
    InsideValue(decls, pkg, lo, hi, k, j, i, a.inst, p);
  }

  lemma InsideValue(decls: seq<Decl>, pkg: string, lo: int, hi: int, k: nat, j: nat, i: nat, x: Inst, p: Inst)
    requires FileNested(decls, lo, hi) && k < |decls| && decls[k].ValueDecl? && j < |decls[k].specs|
    requires IsClaimed(decls[k].specs[j], i) && x in ValueInsts(decls[k].specs[j], i)
    requires IsNested(decls[k].specs[j].values[i])
    requires IsDirectlyIn(ValueInsts(decls[k].specs[j], i), x, p)
    ensures IsDirectlyIn(Insts(FileAdds(decls, pkg)), x, p)
  {
    hide Insts, FileNested, FileAdds, SpecNested, IsPlaced;
    var spec, all := decls[k].specs[j], Insts(FileAdds(decls, pkg));
    var v, some := spec.values[i], ValueInsts(spec, i);
    ValueIsInFile(decls, pkg, lo, hi, k, j, i);
    OneIsNested(v);
    BodyIsPlaced([v], spec.names[i].fullName, v.start, v.end);
    PlacedLies(some, spec.names[i].fullName, v.start, v.end);
    forall y | y in all && y !in some ensures IsClear(y, v.start, v.end) {
      NearValue(decls, pkg, lo, hi, k, j, i, y);
    }
    assert LiesIn(p, v.start, v.end);
    StaysDirectlyIn(some, all, x, p, v.start, v.end);
  }
}
