/** Which instances of a file keep clear of a spec, a value or a declaration, and which are around it. */
module FileLiterals {
  import opened Entities
  import opened Syntax
  import opened Literals
  import opened LiteralCount
  import opened Namesakes

  predicate Avoids(y: Inst, lo: int, hi: int) {
    y.end <= lo || hi <= y.start
  }

  /** Outside the region, or all around it. */
  predicate IsClear(y: Inst, lo: int, hi: int) {
    Avoids(y, lo, hi) || (y.start < lo && hi <= y.end)
  }

  // ------------------------------------------------------------------
  // One spec

  lemma {:induction false} LooseAvoids(nodes: seq<Node>, pkg: string, done: set<int>, lo: int, hi: int, i: nat, y: Inst)
    requires AreNested(nodes, lo, hi) && i < |nodes| && y in Insts(LooseAdds(nodes, pkg, done))
    ensures y in Insts(LooseIn(nodes[i], pkg, done)) || Avoids(y, nodes[i].start, nodes[i].end)
    decreases |nodes|
  {
    hide Insts, LooseIn, IsNested;
    InstsJoined(LooseIn(nodes[0], pkg, done), LooseAdds(nodes[1..], pkg, done));
    LooseNodeLies(nodes[0], pkg, done);
    LooseLie(nodes[1..], pkg, done, nodes[0].end, hi);
    if i > 0 {
      SiblingLies(nodes[1..], nodes[0].end, hi, i - 1);
      if y in Insts(LooseAdds(nodes[1..], pkg, done)) {
        LooseAvoids(nodes[1..], pkg, done, nodes[0].end, hi, i - 1, y);
      }
    }
  }

  /** What value `i` adds, both passes together. */
  function ValueInsts(spec: Spec, i: nat): set<Inst>
    requires i < |spec.values| == |spec.names|
  {
    Insts(BodyAdds([spec.values[i]], spec.names[i].fullName))
  }

  lemma NameLies(spec: Spec, i: nat)
    requires SpecNested(spec) && i < |spec.names|
    ensures LiesIn(NameInst(spec, spec.names[i]), spec.start, spec.end)
    ensures NameInst(spec, spec.names[i]).start < NamesEnd(spec)
    ensures NameInst(spec, spec.names[i]).end <= NamesEnd(spec) || NameInst(spec, spec.names[i]).end == spec.end
  {
    SpecLies(spec);
    NamesLie(spec.names, spec.start, NamesEnd(spec));
  }

  lemma ClaimedLie(v: Node, owner: Inst)
    requires IsNested(v)
    ensures forall y | y in Insts(ClaimedAdds([v], owner)) :: LiesIn(y, v.start, v.end)
  {
    hide Insts, IsPlaced;
    OneIsNested(v);
    TwoPasses([v], owner, "", LitStarts([v]));
    BodyIsPlaced([v], owner.name, v.start, v.end);
    PlacedLies(Insts(BodyAdds([v], owner.name)), owner.name, v.start, v.end);
  }

  lemma OneIsNested(v: Node)
    requires IsNested(v)
    ensures v.start <= v.end && AreNested([v], v.start, v.end)
  {
    StartsLieInNode(v);
  }

  lemma PlacedLies(all: set<Inst>, parent: string, lo: int, hi: int)
    requires IsPlaced(all, parent, lo, hi)
    ensures forall y | y in all :: LiesIn(y, lo, hi)
  {}

  /** What the names of a spec add: the names themselves and what their values' literals are. */
  lemma {:induction false} NamesAre(spec: Spec, k: nat, y: Inst)
    requires k <= |spec.names| && y in Insts(NamesAdds(spec, k))
    ensures exists i: nat ::
              i < k && spec.names[i].isDeclared
              && (y == NameInst(spec, spec.names[i])
                  || (IsPaired(spec) && y in Insts(ClaimedAdds([spec.values[i]], NameInst(spec, spec.names[i])))))
  {
    hide Insts, ClaimedAdds, NameInst;
    if k == 0 {
      NoInsts();
    } else {
      var before, name := NamesAdds(spec, k - 1), spec.names[k - 1];
      if y in Insts(before) {
        NamesAre(spec, k - 1, y);
      } else if name.isDeclared {
        var first := Call(NameInst(spec, name), None);
        var claimed := if IsPaired(spec) then ClaimedAdds([spec.values[k - 1]], NameInst(spec, name)) else [];
        InstsJoined(before + [first], claimed);
        InstsJoined(before, [first]);
        InstsOfOne(first);
        NoInsts();
      }
    }
  }

  lemma NamesClear(spec: Spec, i: nat, y: Inst)
    requires SpecNested(spec) && IsClaimed(spec, i) && y in Insts(NamesAdds(spec, |spec.names|))
    ensures y in Insts(ClaimedAdds([spec.values[i]], NameInst(spec, spec.names[i])))
            || IsClear(y, spec.values[i].start, spec.values[i].end)
  {
    hide Insts, SpecNested, IsNested, ClaimedAdds, NameInst;
    NamesAre(spec, |spec.names|, y);
    var j: nat :| j < |spec.names| && spec.names[j].isDeclared
                  && (y == NameInst(spec, spec.names[j])
                      || (IsPaired(spec) && y in Insts(ClaimedAdds([spec.values[j]], NameInst(spec, spec.names[j])))));
    ValueFacts(spec, i);
    NameLies(spec, j);
    if y != NameInst(spec, spec.names[j]) && j != i {
      ValueFacts(spec, j);
      ClaimedLie(spec.values[j], NameInst(spec, spec.names[j]));
      ValuesInOrder(spec, if i < j then i else j, if i < j then j else i);
    }
  }

  lemma ValuesInOrder(spec: Spec, i: nat, j: nat)
    requires SpecNested(spec) && i < j < |spec.values|
    ensures spec.values[i].end <= spec.values[j].start
  {
    SiblingOrder(NodesOf(spec), NamesEnd(spec), spec.end, |spec.annotation| + i, |spec.annotation| + j);
  }

  /** Everything a spec adds, in either pass. */
  function SpecInsts(spec: Spec, pkg: string, done: set<int>): set<Inst> {
    Insts(NamesAdds(spec, |spec.names|)) + Insts(LooseAdds(NodesOf(spec), pkg, done))
  }

  lemma SpecInstsLie(spec: Spec, pkg: string, done: set<int>)
    requires SpecNested(spec)
    ensures forall y | y in SpecInsts(spec, pkg, done) :: LiesIn(y, spec.start, spec.end)
  {
    hide Insts, SpecNested, IsNested, NameInst, ClaimedAdds;
    SpecLies(spec);
    SpecNodesNested(spec);
    LooseLie(NodesOf(spec), pkg, done, NamesEnd(spec), spec.end);
    forall y | y in Insts(NamesAdds(spec, |spec.names|)) ensures LiesIn(y, spec.start, spec.end) {
      NamesAre(spec, |spec.names|, y);
      var i: nat :| i < |spec.names| && spec.names[i].isDeclared
                    && (y == NameInst(spec, spec.names[i])
                        || (IsPaired(spec)
                            && y in Insts(ClaimedAdds([spec.values[i]], NameInst(spec, spec.names[i])))));
      NameLies(spec, i);
      if y != NameInst(spec, spec.names[i]) {
        ValueFacts(spec, i);
        ClaimedLie(spec.values[i], NameInst(spec, spec.names[i]));
      }
    }
  }

  lemma SpecNodesNested(spec: Spec)
    requires SpecNested(spec)
    ensures |spec.names| > 0 && AreNested(NodesOf(spec), NamesEnd(spec), spec.end)
  {}

  lemma BothPasses(spec: Spec, pkg: string, done: set<int>, i: nat)
    requires SpecNested(spec) && DoneFits(spec, done) && IsClaimed(spec, i)
    ensures Insts(ClaimedAdds([spec.values[i]], NameInst(spec, spec.names[i]))) <= ValueInsts(spec, i)
    ensures Insts(LooseIn(spec.values[i], pkg, done)) <= ValueInsts(spec, i)
  {
    hide Insts, SpecNested, IsNested, LooseIn, ClaimedIn, DoneFits;
    var v := spec.values[i];
    NodeIsSettled(spec, done, |spec.annotation| + i);
    OneNode(v);
    TwoPasses([v], NameInst(spec, spec.names[i]), pkg, done);
    assert [v][1..] == [] && LooseIn(v, pkg, done) + [] == LooseIn(v, pkg, done);
    assert LooseAdds([v], pkg, done) == LooseIn(v, pkg, done);
  }

  /** Around a claimed value, a spec adds only what surrounds the value or keeps clear of it. */
  lemma SpecClear(spec: Spec, pkg: string, done: set<int>, i: nat, y: Inst)
    requires SpecNested(spec) && DoneFits(spec, done) && IsClaimed(spec, i) && y in SpecInsts(spec, pkg, done)
    ensures y in ValueInsts(spec, i) || IsClear(y, spec.values[i].start, spec.values[i].end)
  {
    hide Insts, SpecNested, DoneFits, ValueInsts, NamesAdds, LooseAdds, LooseIn, ClaimedAdds, NameInst;
    BothPasses(spec, pkg, done, i);
    if y in Insts(NamesAdds(spec, |spec.names|)) {
      NamesClear(spec, i, y);
    } else {
      SpecNodesNested(spec);
      LooseAvoids(NodesOf(spec), pkg, done, NamesEnd(spec), spec.end, |spec.annotation| + i, y);
    }
  }

  // ------------------------------------------------------------------
  // Specs, declarations, files

  lemma {:induction false} SpecsAvoid(specs: seq<Spec>, pkg: string, done: set<int>, lo: int, hi: int, j: nat, y: Inst)
    requires SpecsNested(specs, lo, hi) && j < |specs|
    requires y in SpecsInsts(specs, pkg, done)
    ensures y in SpecInsts(specs[j], pkg, done) || Avoids(y, specs[j].start, specs[j].end)
    decreases |specs|
  {
    hide Insts, SpecNested, SpecInsts, SpecsInsts, NamesAdds, LooseAdds;
    var spec, rest := specs[0], specs[1..];
    FirstAndRest(specs, pkg, done);
    SpecInstsLie(spec, pkg, done);
    SpecsInstsLie(rest, pkg, done, spec.end, hi);
    if j > 0 {
      SpecsOrder(rest, spec.end, hi, j - 1);
      if y in SpecsInsts(rest, pkg, done) {
        SpecsAvoid(rest, pkg, done, spec.end, hi, j - 1, y);
      }
    }
  }

  /** Everything a list of specs adds, in either pass. */
  function SpecsInsts(specs: seq<Spec>, pkg: string, done: set<int>): set<Inst> {
    Insts(SpecsAdds(specs)) + Insts(SpecsLoose(specs, pkg, done))
  }

  lemma FirstAndRest(specs: seq<Spec>, pkg: string, done: set<int>)
    requires |specs| > 0
    ensures SpecsInsts(specs, pkg, done) == SpecInsts(specs[0], pkg, done) + SpecsInsts(specs[1..], pkg, done)
  {
    hide Insts, NamesAdds, LooseAdds;
    var spec, rest := specs[0], specs[1..];
    InstsJoined(NamesAdds(spec, |spec.names|), SpecsAdds(rest));
    InstsJoined(LooseAdds(NodesOf(spec), pkg, done), SpecsLoose(rest, pkg, done));
  }

  lemma {:induction false} SpecsOrder(specs: seq<Spec>, lo: int, hi: int, j: nat)
    requires SpecsNested(specs, lo, hi) && j < |specs|
    ensures SpecNested(specs[j]) && lo <= specs[j].start <= specs[j].end <= hi
    decreases |specs|
  {
    hide SpecNested;
    SpecLies(specs[0]);
    SpecsLie(specs[1..], specs[0].end, hi);
    if j > 0 {
      SpecsOrder(specs[1..], specs[0].end, hi, j - 1);
    }
  }

  lemma {:induction false} SpecsInstsLie(specs: seq<Spec>, pkg: string, done: set<int>, lo: int, hi: int)
    requires SpecsNested(specs, lo, hi)
    ensures lo <= hi && forall y | y in SpecsInsts(specs, pkg, done) :: LiesIn(y, lo, hi)
    decreases |specs|
  {
    hide Insts, SpecNested, SpecInsts, NamesAdds, LooseAdds;
    if |specs| == 0 {
      NoInsts();
      assert SpecsInsts(specs, pkg, done) == {};
    } else {
      var spec, rest := specs[0], specs[1..];
      FirstAndRest(specs, pkg, done);
      SpecLies(spec);
      SpecInstsLie(spec, pkg, done);
      SpecsInstsLie(rest, pkg, done, spec.end, hi);
    }
  }

  lemma DeclInstsLie(d: Decl, pkg: string)
    requires DeclNested(d)
    ensures DeclStart(d) <= DeclEnd(d)
    ensures forall y | y in Insts(DeclAdds(d, pkg)) :: LiesIn(y, DeclStart(d), DeclEnd(d))
  {
    hide Insts, SpecsNested, AreNested, IsNested, IsPlaced;
    match d
    case FuncDecl(start, end, fullName, body) =>
      var first := Call(Inst(Declared, fullName, start, end), None);
      BodyIsPlaced(body, fullName, start + 1, end);
      PlacedLies(Insts(BodyAdds(body, fullName)), fullName, start + 1, end);
      InstsJoined([first], BodyAdds(body, fullName));
      InstsOfOne(first);
    case ValueDecl(start, end, specs) =>
      var done := SpecsStarts(specs);
      SpecsInstsLie(specs, pkg, done, start, end);
      InstsJoined(SpecsAdds(specs), SpecsLoose(specs, pkg, done));
    case Loose(node) => LooseNodeLies(node, pkg, {});
  }

  lemma {:induction false} FileInstsLie(decls: seq<Decl>, pkg: string, lo: int, hi: int)
    requires FileNested(decls, lo, hi)
    ensures lo <= hi && forall y | y in Insts(FileAdds(decls, pkg)) :: LiesIn(y, lo, hi)
    decreases |decls|
  {
    hide Insts, DeclNested, DeclAdds, DeclStart, DeclEnd;
    if |decls| == 0 {
      NoInsts();
    } else {
      DeclInstsLie(decls[0], pkg);
      FileInstsLie(decls[1..], pkg, DeclEnd(decls[0]), hi);
      InstsJoined(DeclAdds(decls[0], pkg), FileAdds(decls[1..], pkg));
    }
  }

  /** What the rest of the file adds keeps clear of declaration `k`. */
  lemma {:induction false} FileAvoids(decls: seq<Decl>, pkg: string, lo: int, hi: int, k: nat, y: Inst)
    requires FileNested(decls, lo, hi) && k < |decls| && y in Insts(FileAdds(decls, pkg))
    ensures DeclNested(decls[k]) && lo <= DeclStart(decls[k]) <= DeclEnd(decls[k]) <= hi
    ensures Insts(DeclAdds(decls[k], pkg)) <= Insts(FileAdds(decls, pkg))
    ensures y in Insts(DeclAdds(decls[k], pkg)) || Avoids(y, DeclStart(decls[k]), DeclEnd(decls[k]))
    decreases |decls|
  {
    hide Insts, DeclNested, DeclAdds, DeclStart, DeclEnd;
    var first, rest := decls[0], decls[1..];
    InstsJoined(DeclAdds(first, pkg), FileAdds(rest, pkg));
    DeclInstsLie(first, pkg);
    FileInstsLie(rest, pkg, DeclEnd(first), hi);
    if k > 0 {
      FileHolds(rest, pkg, DeclEnd(first), hi, k - 1);
      if y in Insts(FileAdds(rest, pkg)) {
        FileAvoids(rest, pkg, DeclEnd(first), hi, k - 1, y);
      }
    }
  }

  lemma {:induction false} FileHolds(decls: seq<Decl>, pkg: string, lo: int, hi: int, k: nat)
    requires FileNested(decls, lo, hi) && k < |decls|
    ensures DeclNested(decls[k]) && lo <= DeclStart(decls[k]) <= DeclEnd(decls[k]) <= hi
    ensures Insts(DeclAdds(decls[k], pkg)) <= Insts(FileAdds(decls, pkg))
    decreases |decls|
  {
    hide Insts, DeclNested, DeclAdds, DeclStart, DeclEnd;
    var first, rest := decls[0], decls[1..];
    InstsJoined(DeclAdds(first, pkg), FileAdds(rest, pkg));
    DeclInstsLie(first, pkg);
    FileInstsLie(rest, pkg, DeclEnd(first), hi);
    if k > 0 {
      FileHolds(rest, pkg, DeclEnd(first), hi, k - 1);
    }
  }
}
