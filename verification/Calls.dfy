/** In which order a file makes its calls, and that a literal with an owner shares its range with nothing. */
module Calls {
  import opened Entities
  import opened Syntax
  import opened Literals
  import opened LiteralCount
  import opened Namesakes
  import opened FileLiterals
  import opened Attribution
  import opened LiteralTree

  // ------------------------------------------------------------------
  // Owners come first

  /** Each owner has been added before, or is among `seen`. */
  predicate OwnersFirst(adds: seq<Call>, seen: set<Inst>)
    decreases |adds|
  {
    |adds| > 0 ==>
      var before, last := adds[..|adds| - 1], adds[|adds| - 1];
      OwnersFirst(before, seen) && (last.owner.Some? ==> last.owner.value in seen + Insts(before))
  }

  lemma {:induction false} OwnersFirstJoined(a: seq<Call>, b: seq<Call>, seen: set<Inst>)
    requires OwnersFirst(a, seen) && OwnersFirst(b, seen + Insts(a))
    ensures OwnersFirst(a + b, seen)
    decreases |b|
  {
    hide Insts;
    if |b| == 0 {
      assert a + b == a;
    } else {
      var rest := b[..|b| - 1];
      assert (a + b)[..|a + b| - 1] == a + rest;
      OwnersFirstJoined(a, rest, seen);
      InstsJoined(a, rest);
      assert seen + Insts(a) + Insts(rest) == seen + Insts(a + rest);
    }
  }

  /** Owners that were seen before the list began. */
  lemma {:induction false} OwnersAmongSeen(adds: seq<Call>, seen: set<Inst>)
    requires forall a | a in adds && a.owner.Some? :: a.owner.value in seen
    ensures OwnersFirst(adds, seen)
    decreases |adds|
  {
    if |adds| > 0 {
      OwnersAmongSeen(adds[..|adds| - 1], seen);
    }
  }

  lemma {:induction false} OwnersFirstWider(adds: seq<Call>, seen: set<Inst>, more: set<Inst>)
    requires OwnersFirst(adds, seen) && seen <= more
    ensures OwnersFirst(adds, more)
    decreases |adds|
  {
    if |adds| > 0 {
      OwnersFirstWider(adds[..|adds| - 1], seen, more);
    }
  }

  lemma {:induction false} OwnerIsBefore(adds: seq<Call>, n: nat)
    requires OwnersFirst(adds, {}) && n < |adds| && adds[n].owner.Some?
    ensures adds[n].owner.value in Insts(adds[..n])
    decreases |adds|
  {
    hide Insts;
    if n < |adds| - 1 {
      var before := adds[..|adds| - 1];
      OwnerIsBefore(before, n);
      assert before[..n] == adds[..n];
    }
  }

  lemma {:induction false} NamesOwnersFirst(spec: Spec, k: nat)
    requires SpecNested(spec) && k <= |spec.names|
    ensures OwnersFirst(NamesAdds(spec, k), {})
  {
    hide Insts, SpecNested, ClaimedAdds, NameInst;
    if k > 0 && spec.names[k - 1].isDeclared {
      var before, inst := NamesAdds(spec, k - 1), NameInst(spec, spec.names[k - 1]);
      var first := [Call(inst, None)];
      OwnersAmongSeen(first, {} + Insts(before));
      NamesOwnersFirst(spec, k - 1);
      OwnersFirstJoined(before, first, {});
      var claimed := if IsPaired(spec) then ClaimedAdds([spec.values[k - 1]], inst) else [];
      InstsOfOne(first[0]);
      InstsJoined(before, first);
      forall a | a in claimed && a.owner.Some? ensures a.owner.value in {} + Insts(before + first) {
        ValueFacts(spec, k - 1);
        OwnedOrInside([spec.values[k - 1]], inst, spec.values[k - 1].start, spec.values[k - 1].end, a);
      }
      OwnersAmongSeen(claimed, {} + Insts(before + first));
      OwnersFirstJoined(before + first, claimed, {});
    } else if k > 0 {
      NamesOwnersFirst(spec, k - 1);
    }
  }

  lemma {:induction false} SpecsOwnersFirst(specs: seq<Spec>, lo: int, hi: int)
    requires SpecsNested(specs, lo, hi)
    ensures OwnersFirst(SpecsAdds(specs), {})
    decreases |specs|
  {
    hide SpecNested, NamesAdds;
    if |specs| > 0 {
      var first, rest := NamesAdds(specs[0], |specs[0].names|), SpecsAdds(specs[1..]);
      NamesOwnersFirst(specs[0], |specs[0].names|);
      SpecsOwnersFirst(specs[1..], specs[0].end, hi);
      OwnersFirstWider(rest, {}, {} + Insts(first));
      OwnersFirstJoined(first, rest, {});
    }
  }

  lemma DeclOwnersFirst(d: Decl, pkg: string)
    requires DeclNested(d)
    ensures OwnersFirst(DeclAdds(d, pkg), {})
  {
    hide OwnersFirst, Insts, SpecsNested, BodyAdds, LooseIn, SpecsAdds, SpecsLoose;
    match d
    case FuncDecl(start, end, fullName, body) =>
      forall a | a in DeclAdds(d, pkg) ensures a.owner == None {
        if a in BodyAdds(body, fullName) {
          BodyHasNoOwner(body, fullName, a);
        }
      }
      OwnersAmongSeen(DeclAdds(d, pkg), {});
    case Loose(node) =>
      forall a | a in DeclAdds(d, pkg) ensures a.owner == None {
        LooseNodeHasNoOwner(node, pkg, {}, a);
      }
      OwnersAmongSeen(DeclAdds(d, pkg), {});
    case ValueDecl(start, end, specs) =>
      var first, rest := SpecsAdds(specs), SpecsLoose(specs, pkg, SpecsStarts(specs));
      SpecsOwnersFirst(specs, start, end);
      forall a | a in rest ensures a.owner == None {
        SpecsLooseHasNoOwner(specs, pkg, SpecsStarts(specs), a);
      }
      OwnersAmongSeen(rest, {} + Insts(first));
      OwnersFirstJoined(first, rest, {});
  }

  /** A file adds a name before the literals of the name's initialiser. */
  lemma {:induction false} FileOwnersFirst(decls: seq<Decl>, pkg: string, lo: int, hi: int)
    requires FileNested(decls, lo, hi)
    ensures OwnersFirst(FileAdds(decls, pkg), {})
    decreases |decls|
  {
    hide DeclNested, DeclAdds, DeclStart, DeclEnd;
    if |decls| > 0 {
      var first, rest := DeclAdds(decls[0], pkg), FileAdds(decls[1..], pkg);
      DeclOwnersFirst(decls[0], pkg);
      FileOwnersFirst(decls[1..], pkg, DeclEnd(decls[0]), hi);
      OwnersFirstWider(rest, {}, {} + Insts(first));
      OwnersFirstJoined(first, rest, {});
    }
  }

  // ------------------------------------------------------------------
  // A literal is new when it is added

  lemma {:induction false} CallsAreCounted(adds: seq<Call>, a: Call)
    requires a.inst.kind == Literal
    ensures Starts(adds)[a.inst.start] >= multiset(adds)[a]
    decreases |adds|
  {
    if |adds| > 0 {
      var before := adds[..|adds| - 1];
      CallsAreCounted(before, a);
      assert adds == before + [adds[|adds| - 1]];
    }
  }

  /** The file's calls in some order, owners first. */
  ghost predicate IsOrderOf(made: seq<Call>, adds: seq<Call>) {
    multiset(made) == multiset(adds) && OwnersFirst(made, {})
  }

  lemma SameCalls(made: seq<Call>, adds: seq<Call>)
    requires multiset(made) == multiset(adds)
    ensures forall a :: a in made <==> a in adds
  {
    forall a ensures a in made <==> a in adds {
      assert a in made <==> a in multiset(made);
      assert a in adds <==> a in multiset(adds);
    }
  }

  lemma MadeTwice(made: seq<Call>, n: nat)
    requires n < |made| && made[n] in made[..n]
    ensures multiset(made)[made[n]] >= 2
  {
    assert made == made[..n] + [made[n]] + made[n + 1..];
  }

  lemma LiteralIsNew(decls: seq<Decl>, pkg: string, lo: int, hi: int, made: seq<Call>, n: nat)
    requires FileNested(decls, lo, hi) && multiset(made) == multiset(FileAdds(decls, pkg))
    requires n < |made| && made[n].inst.kind == Literal
    ensures made[n].inst !in Insts(made[..n])
  {
    hide FileNested, FileAdds, FileLits, Starts;
    var adds := FileAdds(decls, pkg);
    EachLiteralIsAddedOnce(decls, pkg, lo, hi);
    SameCalls(made, adds);
    CallsAreCounted(adds, made[n]);
    forall b | b in made[..n] ensures b.inst != made[n].inst {
      assert b in made;
      if b.inst == made[n].inst {
        LiteralHasOneCall(decls, pkg, lo, hi, b, made[n]);
        MadeTwice(made, n);
      }
    }
  }

  // ------------------------------------------------------------------
  // Its range is its own

  lemma PlacedRangesDiffer(all: set<Inst>, parent: string, lo: int, hi: int, x: Inst, y: Inst)
    requires IsPlaced(all, parent, lo, hi) && x in all && y in all && x != y
    ensures (x.start, x.end) != (y.start, y.end)
  {
    if !IsTop(all, parent, x) {
      var p :| IsDirectlyIn(all, x, p);
    }
  }

  lemma OwnedRangeIsSole(decls: seq<Decl>, pkg: string, lo: int, hi: int, a: Call, y: Inst)
    requires FileNested(decls, lo, hi) && a in FileAdds(decls, pkg) && a.owner.Some?
    requires y in Insts(FileAdds(decls, pkg)) && y != a.inst
    ensures (y.start, y.end) != (a.inst.start, a.inst.end)
  {
    hide FileNested, FileAdds, Insts, SpecNested, SpecsNested, ClaimedAdds, ValueInsts, IsPlaced, IsNested;
    var k, j, i := OwnedIsFromName(decls, pkg, a);
    var spec := decls[k].specs[j];
    FileHolds(decls, pkg, lo, hi, k);
    SpecsOrder(decls[k].specs, decls[k].start, decls[k].end, j);
    ValueFacts(spec, i);
    NearValue(decls, pkg, lo, hi, k, j, i, y);
    ClaimedIsPlaced(spec, i, a);
    if y in ValueInsts(spec, i) {
      PlacedRangesDiffer(ValueInsts(spec, i), spec.names[i].fullName, spec.values[i].start, spec.values[i].end, a.inst,
                         y);
    }
  }

  lemma ClaimedIsPlaced(spec: Spec, i: nat, a: Call)
    requires IsClaimed(spec, i) && IsNested(spec.values[i])
    requires a in ClaimedAdds([spec.values[i]], NameInst(spec, spec.names[i]))
    ensures a.inst in ValueInsts(spec, i) && LiesIn(a.inst, spec.values[i].start, spec.values[i].end)
    ensures IsPlaced(ValueInsts(spec, i), spec.names[i].fullName, spec.values[i].start, spec.values[i].end)
  {
    hide Insts, ClaimedAdds, IsPlaced, IsNested;
    var v := spec.values[i];
    ValueInTwoPasses(spec, "", LitStartsIn(v), i);
    InstOf(ClaimedAdds([v], NameInst(spec, spec.names[i])), a);
    OneIsNested(v);
    BodyIsPlaced([v], spec.names[i].fullName, v.start, v.end);
    PlacedLies(ValueInsts(spec, i), spec.names[i].fullName, v.start, v.end);
  }
}
