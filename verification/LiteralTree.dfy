/**
 The tree of a file's object, as far as function literals go: exactly which of them are
 children of the instance they are named after.
 */
module LiteralTree {
  import opened StableOrder
  import opened Containment
  import opened Forest
  import opened DerivedTree
  import opened Entities
  import opened Numbering
  import opened Stated
  import opened Syntax
  import opened Literals
  import opened LiteralCount
  import opened Namesakes
  import opened FileLiterals
  import opened Attribution

  // ------------------------------------------------------------------
  // Which calls state a parent

  lemma {:induction false} LooseHasNoOwner(nodes: seq<Node>, pkg: string, done: set<int>, a: Call)
    requires a in LooseAdds(nodes, pkg, done)
    ensures a.owner == None
    decreases nodes, 0
  {
    if a in LooseIn(nodes[0], pkg, done) {
      LooseNodeHasNoOwner(nodes[0], pkg, done, a);
    } else {
      LooseHasNoOwner(nodes[1..], pkg, done, a);
    }
  }

  lemma {:induction false} LooseNodeHasNoOwner(n: Node, pkg: string, done: set<int>, a: Call)
    requires a in LooseIn(n, pkg, done)
    ensures a.owner == None
    decreases n, 0
  {
    match n
    case FuncLit(start, end, body) =>
      if a != Call(LitInst(pkg, start, end), None) {
        BodyHasNoOwner(body, LitName(pkg, start), a);
      }
    case Member(start, end, name, children) =>
      if a != Call(Inst(MemberKind, name, start, end), None) {
        LooseHasNoOwner(children, pkg, done, a);
      }
    case Other(_, _, children) => LooseHasNoOwner(children, pkg, done, a);
  }

  lemma {:induction false} SpecsLooseHasNoOwner(specs: seq<Spec>, pkg: string, done: set<int>, a: Call)
    requires a in SpecsLoose(specs, pkg, done)
    ensures a.owner == None
    decreases |specs|
  {
    if a in LooseAdds(NodesOf(specs[0]), pkg, done) {
      LooseHasNoOwner(NodesOf(specs[0]), pkg, done, a);
    } else {
      SpecsLooseHasNoOwner(specs[1..], pkg, done, a);
    }
  }

  lemma {:induction false} OwnedInNames(spec: Spec, k: nat, a: Call) returns (i: nat)
    requires k <= |spec.names| && a in NamesAdds(spec, k) && a.owner.Some?
    ensures IsClaimed(spec, i) && a in ClaimedAdds([spec.values[i]], NameInst(spec, spec.names[i]))
  {
    hide ClaimedAdds, NameInst;
    if a in NamesAdds(spec, k - 1) {
      i := OwnedInNames(spec, k - 1, a);
    } else {
      i := k - 1;
    }
  }

  lemma {:induction false} OwnedInSpecs(specs: seq<Spec>, a: Call) returns (j: nat, i: nat)
    requires a in SpecsAdds(specs) && a.owner.Some?
    ensures j < |specs| && IsClaimed(specs[j], i)
    ensures a in ClaimedAdds([specs[j].values[i]], NameInst(specs[j], specs[j].names[i]))
    decreases |specs|
  {
    hide ClaimedAdds, NameInst;
    if a in NamesAdds(specs[0], |specs[0].names|) {
      i := OwnedInNames(specs[0], |specs[0].names|, a);
      j := 0;
    } else {
      j, i := OwnedInSpecs(specs[1..], a);
      j := j + 1;
    }
  }

  /** Only initialisers' outermost literals have a parent stated. */
  lemma {:induction false} OwnedIsFromName(decls: seq<Decl>, pkg: string, a: Call) returns (k: nat, j: nat, i: nat)
    requires a in FileAdds(decls, pkg) && a.owner.Some?
    ensures k < |decls| && IsFromName(decls[k], j, i, a)
    decreases |decls|
  {
    hide ClaimedAdds, NameInst, BodyAdds, LooseIn, SpecsAdds, SpecsLoose;
    if a in DeclAdds(decls[0], pkg) {
      k := 0;
      match decls[0] {
        case FuncDecl(_, _, fullName, body) => BodyHasNoOwner(body, fullName, a);
        case Loose(node) => LooseNodeHasNoOwner(node, pkg, {}, a);
        case ValueDecl(_, _, specs) =>
          if a in SpecsLoose(specs, pkg, SpecsStarts(specs)) {
            SpecsLooseHasNoOwner(specs, pkg, SpecsStarts(specs), a);
          }
          j, i := OwnedInSpecs(specs, a);
      }
    } else {
      k, j, i := OwnedIsFromName(decls[1..], pkg, a);
      k := k + 1;
    }
  }

  lemma {:induction false} AddedIsCounted(adds: seq<Call>, a: Call)
    requires a in adds && a.inst.kind == Literal
    ensures Starts(adds)[a.inst.start] >= 1
    decreases |adds|
  {
    var last := adds[|adds| - 1];
    if a != last {
      assert a in adds[..|adds| - 1];
      AddedIsCounted(adds[..|adds| - 1], a);
    }
  }

  lemma {:induction false} TwoAreCounted(adds: seq<Call>, a: Call, b: Call)
    requires a in adds && b in adds && a != b && a.inst.kind == b.inst.kind == Literal && a.inst.start == b.inst.start
    ensures Starts(adds)[a.inst.start] >= 2
    decreases |adds|
  {
    var rest, last := adds[..|adds| - 1], adds[|adds| - 1];
    assert adds == rest + [last];
    if a == last {
      AddedIsCounted(rest, b);
    } else if b == last {
      AddedIsCounted(rest, a);
    } else {
      TwoAreCounted(rest, a, b);
    }
  }

  /** One literal, one call: it is not added again with another owner. */
  lemma LiteralHasOneCall(decls: seq<Decl>, pkg: string, lo: int, hi: int, a: Call, b: Call)
    requires FileNested(decls, lo, hi) && a in FileAdds(decls, pkg) && b in FileAdds(decls, pkg)
    requires a.inst.start == b.inst.start && a.inst.kind == b.inst.kind == Literal
    ensures a == b
  {
    hide FileNested, FileAdds, FileLits, Starts;
    EachLiteralIsAddedOnce(decls, pkg, lo, hi);
    if a != b {
      TwoAreCounted(FileAdds(decls, pkg), a, b);
    }
  }

  /** What has an owner is a literal of the owner's own initialiser, behind it. */
  lemma OwnedFollowsName(decls: seq<Decl>, pkg: string, lo: int, hi: int, a: Call)
    requires FileNested(decls, lo, hi) && a in FileAdds(decls, pkg) && a.owner.Some?
    ensures a.inst.kind == Literal && a.owner.value.kind == Declared
    ensures a.owner.value in Insts(FileAdds(decls, pkg)) && a.owner.value.start < a.inst.start
  {
    hide FileNested, FileAdds, Insts, IsFromName;
    var k, j, i := OwnedIsFromName(decls, pkg, a);
    NameLiteralIsPlaced(decls, pkg, lo, hi, k, j, i, a);
  }

  // ------------------------------------------------------------------
  // The object

  /** The call `a` states a parent, and its instance and its owner's stand at `c` and `p`. */
  ghost predicate StatesParent(adds: seq<Call>, at: map<Inst, int>, a: Call, c: int, p: int) {
    && a in adds && a.owner.Some? && a.inst in at && a.owner.value in at
    && at[a.inst] == c && at[a.owner.value] == p
  }

  function ExtentOfInst(x: Inst): Extent {
    Extent(x.start, x.end, 3)
  }

  ghost predicate StandsAt(at: map<Inst, int>, x: Inst, k: int) {
    x in at && at[x] == k
  }

  /** Sorted before everything the calls add, as the containers are, or around none of the literals, as a comment is. */
  ghost predicate IsApart(insts: set<Inst>, e: Extent) {
    || (forall x | x in insts :: OutermostFirst(e, ExtentOfInst(x)))
    || (forall x | x in insts && x.kind == Literal :: !Contains(e, ExtentOfInst(x)))
  }

  /**
   The extents and stated parents of an object in which `at` gives the places of what the calls
   add: anything else there keeps apart, and the stated parents are the calls' owners.
   */
  ghost predicate IsObjectOf(adds: seq<Call>, at: map<Inst, int>, s: seq<Extent>, stated: map<int, int>) {
    && at.Keys == Insts(adds)
    && (forall x | x in at :: 0 <= at[x] < |s| && s[at[x]] == ExtentOfInst(x))
    && (forall k | 0 <= k < |s| :: (exists x :: StandsAt(at, x, k)) || IsApart(at.Keys, s[k]))
    && (forall c | Applies(|s|, stated, c) :: exists a :: StatesParent(adds, at, a, c, stated[c]))
    && (forall a | a in adds && a.owner.Some? ::
          Applies(|s|, stated, at[a.inst]) && StatesParent(adds, at, a, at[a.inst], stated[at[a.inst]]))
  }

  lemma StatedStartEarlier(
      decls: seq<Decl>, pkg: string, length: int, at: map<Inst, int>, s: seq<Extent>, stated: map<int, int>)
    requires FileNested(decls, 0, length) && IsObjectOf(FileAdds(decls, pkg), at, s, stated)
    ensures IsParents(Derived(s, OrderOf(s))) && IsForest(Merged(Derived(s, OrderOf(s)), stated))
    ensures ChosenParents(s, stated) == Merged(Derived(s, OrderOf(s)), stated)
  {
    hide FileNested, FileAdds, Insts, OrderOf, Merged, Derived, IsApart;
    var order := OrderOf(s);
    DerivedIsForest(s, order);
    forall c: nat | Applies(|s|, stated, c) ensures Pos(order, stated[c]) < Pos(order, c) {
      var a :| StatesParent(FileAdds(decls, pkg), at, a, c, stated[c]);
      OwnedFollowsName(decls, pkg, 0, length, a);
      SortLessIsStrictWeak(s);
      PosIsBefore(|s|, SortLess(s), order, stated[c], c);
    }
    EarlierStatedAreHonoured(s, order, stated);
  }

  /** What a literal is directly inside of is its derived parent. */
  lemma DirectlyInIsParent(
      adds: seq<Call>, at: map<Inst, int>, s: seq<Extent>, stated: map<int, int>, lo: int, hi: int, x: Inst, p: Inst)
    requires IsObjectOf(adds, at, s, stated) && x in at && p in at && x.kind == Literal
    requires forall y | y in Insts(adds) :: LiesIn(y, lo, hi)
    requires IsDirectlyIn(Insts(adds), x, p)
    ensures Derived(s, OrderOf(s))[at[x]] == at[p]
  {
    hide Insts, Derived, OrderOf, IsApart;
    var order := OrderOf(s);
    DerivedIsInnermost(s, order, at[x]);
    var d := Derived(s, order)[at[x]];
    assert LiesIn(x, lo, hi) && LiesIn(p, lo, hi);
    assert Contains(s[at[p]], s[at[x]]);
    if d != at[p] {
      AnotherComesFirst(adds, at, s, stated, lo, hi, x, p, d);
      SortLessIsStrictWeak(s);
      PosIsBefore(|s|, SortLess(s), order, d, at[p]);
    }
  }

  lemma AnotherComesFirst(
      adds: seq<Call>, at: map<Inst, int>, s: seq<Extent>, stated: map<int, int>, lo: int, hi: int, x: Inst, p: Inst,
      d: nat)
    requires IsObjectOf(adds, at, s, stated) && x in at && p in at && x.kind == Literal
    requires d < |s| && d != at[p] && Contains(s[d], s[at[x]])
    requires forall y | y in Insts(adds) :: LiesIn(y, lo, hi)
    requires IsDirectlyIn(Insts(adds), x, p)
    ensures OutermostFirst(s[d], s[at[p]])
  {
    hide Insts;
    if y :| StandsAt(at, y, d) {
      assert LiesIn(y, lo, hi) && LiesIn(x, lo, hi) && y != x && y != p;
    } else {
      assert IsApart(at.Keys, s[d]);
    }
  }

  // ------------------------------------------------------------------
  // Whose child a literal is

  /** `m` is around `x`, and everything else around `x` is around `m` too. */
  ghost predicate IsClosest(all: set<Inst>, x: Inst, m: Inst) {
    m in all && m != x && Spans(m, x) && forall y | y in all && y != x && Spans(y, x) :: Spans(y, m)
  }

  /** The closest instance around `x` is a local type or an interface method. */
  ghost predicate IsInMember(all: set<Inst>, x: Inst) {
    exists m: Inst :: m.kind == MemberKind && IsClosest(all, x, m)
  }

  /** And the name of `x` does not happen to extend that one's. */
  ghost predicate IsInOtherMember(all: set<Inst>, x: Inst) {
    exists m: Inst :: m.kind == MemberKind && IsClosest(all, x, m) && x.name != LitName(m.name, x.start)
  }

  lemma DirectlyInIsClosest(all: set<Inst>, x: Inst, p: Inst, m: Inst)
    requires IsDirectlyIn(all, x, p)
    ensures IsClosest(all, x, m) <==> m == p
  {}

  /** What decides between the two, once it is known what the literal is directly inside of. */
  lemma NameTells(all: set<Inst>, x: Inst, p: Inst)
    requires x.kind == Literal && IsDirectlyIn(all, x, p)
    ensures p.kind == MemberKind <==> IsInMember(all, x)
    ensures x.name == LitName(p.name, x.start) <==> !IsInOtherMember(all, x)
  {
    hide IsClosest;
    forall m ensures IsClosest(all, x, m) <==> m == p {
      DirectlyInIsClosest(all, x, p, m);
    }
    if p.kind == MemberKind {
      assert IsClosest(all, x, p);
    } else {
      NamedAfter(all, x, p);
    }
  }

  lemma NamedAfter(all: set<Inst>, x: Inst, p: Inst)
    requires IsDirectlyIn(all, x, p) && x.kind == Literal && p.kind != MemberKind
    ensures x.name == LitName(p.name, x.start)
  {}

  /**
   In the tree of a well-nested file, the parent of a literal in a function, or in a name's own
   initialiser, is the instance whose name the literal's name extends, unless the calls leave it
   without an owner inside a local type or an interface method: then it is that type or method.
   */
  lemma LiteralIsInNamesake(
      decls: seq<Decl>, pkg: string, length: int, at: map<Inst, int>, s: seq<Extent>, stated: map<int, int>,
      k: nat, j: nat, i: nat, a: Call) returns (p: Inst)
    requires FileNested(decls, 0, length) && IsObjectOf(FileAdds(decls, pkg), at, s, stated)
    requires k < |decls| && (IsFromFunction(decls[k], a) || IsFromName(decls[k], j, i, a))
    requires a in FileAdds(decls, pkg) && a.inst.kind == Literal
    ensures a.inst in at && p in at && 0 <= at[a.inst] < |s| && ChosenParents(s, stated)[at[a.inst]] == at[p]
    ensures p.kind == MemberKind <==> a.owner.None? && IsInMember(at.Keys, a.inst)
    ensures a.inst.name == LitName(p.name, a.inst.start) <==> !(a.owner.None? && IsInOtherMember(at.Keys, a.inst))
    ensures a.owner.Some? ==> p == a.owner.value
  {
    hide FileNested, FileAdds, Insts, OrderOf, Derived, IsForest, FileLits, BodyAdds, ClaimedAdds, IsDirectlyIn,
      IsApart,
      IsInMember, IsInOtherMember;
    StatedStartEarlier(decls, pkg, length, at, s, stated);
    InstOf(FileAdds(decls, pkg), a);
    if IsFromFunction(decls[k], a) {
      FunctionLiteralIsPlaced(decls, pkg, 0, length, k, a);
    } else {
      NameLiteralIsPlaced(decls, pkg, 0, length, k, j, i, a);
    }
    if a.owner.Some? {
      p := a.owner.value;
    } else {
      p := PlacedParent(decls, pkg, length, at, s, stated, a);
    }
  }

  lemma PlacedParent(
      decls: seq<Decl>, pkg: string, length: int, at: map<Inst, int>, s: seq<Extent>, stated: map<int, int>, a: Call)
    returns (p: Inst)
    requires FileNested(decls, 0, length) && IsObjectOf(FileAdds(decls, pkg), at, s, stated)
    requires a in FileAdds(decls, pkg) && a.owner.None? && a.inst.kind == Literal && a.inst in at
    requires IsSomewhereIn(Insts(FileAdds(decls, pkg)), a.inst) && IsParents(Derived(s, OrderOf(s)))
    ensures p in at && Merged(Derived(s, OrderOf(s)), stated)[at[a.inst]] == at[p]
    ensures p.kind == MemberKind <==> IsInMember(at.Keys, a.inst)
    ensures a.inst.name == LitName(p.name, a.inst.start) <==> !IsInOtherMember(at.Keys, a.inst)
  {
    hide FileNested, FileAdds, Insts, OrderOf, Derived, IsApart, IsInMember, IsInOtherMember;
    FileInstsLie(decls, pkg, 0, length);
    p :| IsDirectlyIn(Insts(FileAdds(decls, pkg)), a.inst, p);
    DirectlyInIsParent(FileAdds(decls, pkg), at, s, stated, 0, length, a.inst, p);
    NameTells(Insts(FileAdds(decls, pkg)), a.inst, p);
    if Applies(|s|, stated, at[a.inst]) {
      var b :| StatesParent(FileAdds(decls, pkg), at, b, at[a.inst], stated[at[a.inst]]);
      OwnedFollowsName(decls, pkg, 0, length, b);
      LiteralHasOneCall(decls, pkg, 0, length, a, b);
    }
  }

  /**
   The exception is real: a literal in the array length of a local type is named after the
   function and lies inside the type.
   */
  lemma LocalTypeComesBetween()
    ensures var decls := [FuncDecl(0, 100, "p.f", [Member(20, 90, "p.T", [FuncLit(40, 50, [])])])];
            var a, t := Call(LitInst("p.f", 40, 50), None), Inst(MemberKind, "p.T", 20, 90);
            && FileNested(decls, 0, 100) && IsFromFunction(decls[0], a) && a in FileAdds(decls, "p")
            && IsDirectlyIn(Insts(FileAdds(decls, "p")), a.inst, t) && a.inst.name != LitName(t.name, 40)
            && a.owner.None? && IsInOtherMember(Insts(FileAdds(decls, "p")), a.inst)
  {
    var body := [Member(20, 90, "p.T", [FuncLit(40, 50, [])])];
    var decls := [FuncDecl(0, 100, "p.f", body)];
    var f, t, lit := Inst(Declared, "p.f", 0, 100), Inst(MemberKind, "p.T", 20, 90), LitInst("p.f", 40, 50);
    assert AreNested([FuncLit(40, 50, [])], 21, 90) && IsNested(body[0]) && AreNested(body, 1, 100);
    assert FileNested(decls, 0, 100);
    assert BodyAdds([FuncLit(40, 50, [])], "p.f") == [Call(lit, None)];
    assert NodeAdds(body[0], "p.f") == [Call(t, None), Call(lit, None)];
    assert BodyAdds(body, "p.f") == [Call(t, None), Call(lit, None)];
    assert DeclAdds(decls[0], "p") == [Call(f, None), Call(t, None), Call(lit, None)];
    var adds := FileAdds(decls, "p");
    assert decls[1..] == [] && FileAdds(decls[1..], "p") == [];
    assert adds == [Call(f, None), Call(t, None), Call(lit, None)];
    assert Insts(adds) == {f, t, lit} by {
      assert adds[0] in adds && adds[1] in adds && adds[2] in adds;
    }
    assert "p.f"[2] != "p.T"[2];
    assert LitName("p.f", 40)[2] != LitName("p.T", 40)[2];
    NameTells(Insts(adds), lit, t);
  }
}
