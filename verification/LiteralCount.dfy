/** Each function literal of a well-nested file is added exactly once. */
module LiteralCount {
  import opened Entities
  import opened Syntax
  import opened Collections

  /** The starts of the literals that a list of calls adds, counted. */
  function Starts(adds: seq<Call>): multiset<int>
    decreases |adds|
  {
    if |adds| == 0 then multiset{}
    else
      var last := adds[|adds| - 1].inst;
      Starts(adds[..|adds| - 1]) + if last.kind == Literal then multiset{last.start} else multiset{}
  }

  lemma {:induction false} StartsJoined(a: seq<Call>, b: seq<Call>)
    ensures Starts(a + b) == Starts(a) + Starts(b)
    decreases |b|
  {
    if |b| == 0 {
      assert a + b == a;
    } else {
      var rest := b[..|b| - 1];
      assert (a + b)[..|a + b| - 1] == a + rest;
      StartsJoined(a, rest);
    }
  }

  lemma StartsOfOne(a: Call)
    ensures Starts([a]) == if a.inst.kind == Literal then multiset{a.inst.start} else multiset{}
  {
    assert [a][..0] == [];
  }

  /** Starts of different nodes differ, so they are added up as sets are joined. */
  lemma SetsAddUp(a: set<int>, b: set<int>)
    requires a !! b
    ensures multiset(a + b) == multiset(a) + multiset(b)
  {}

  lemma BelowAbove(a: set<int>, b: set<int>, x: int)
    requires forall v | v in a :: v < x
    requires forall v | v in b :: x <= v
    ensures a !! b
  {
    forall v | v in a ensures v !in b {}
    NothingShared(a, b);
  }

  lemma {:induction false} StartsLieIn(nodes: seq<Node>, lo: int, hi: int)
    requires AreNested(nodes, lo, hi)
    ensures lo <= hi && forall v | v in LitStarts(nodes) :: lo <= v < hi
    decreases nodes, 0
  {
    if |nodes| > 0 {
      StartsLieInNode(nodes[0]);
      StartsLieIn(nodes[1..], nodes[0].end, hi);
    }
  }

  lemma {:induction false} StartsLieInNode(n: Node)
    requires IsNested(n)
    ensures n.start <= n.end && forall v | v in LitStartsIn(n) :: n.start <= v < n.end
    decreases n, 0
  {
    match n
    case FuncLit(start, end, body) => StartsLieIn(body, start + 1, end);
    case Member(start, end, _, children) => StartsLieIn(children, start + 1, end);
    case Other(start, end, children) => StartsLieIn(children, start, end);
  }

  lemma SiblingsDiffer(nodes: seq<Node>, lo: int, hi: int)
    requires AreNested(nodes, lo, hi) && |nodes| > 0
    ensures LitStartsIn(nodes[0]) !! LitStarts(nodes[1..])
  {
    StartsLieInNode(nodes[0]);
    StartsLieIn(nodes[1..], nodes[0].end, hi);
    BelowAbove(LitStartsIn(nodes[0]), LitStarts(nodes[1..]), nodes[0].end);
  }

  lemma {:induction false} BodyStarts(nodes: seq<Node>, parent: string, lo: int, hi: int)
    requires AreNested(nodes, lo, hi)
    ensures Starts(BodyAdds(nodes, parent)) == multiset(LitStarts(nodes))
    decreases nodes, 0
  {
    hide Starts;
    if |nodes| == 0 {
      NoStarts();
    } else {
      NodeStarts(nodes[0], parent);
      BodyStarts(nodes[1..], parent, nodes[0].end, hi);
      StartsJoined(NodeAdds(nodes[0], parent), BodyAdds(nodes[1..], parent));
      SiblingsDiffer(nodes, lo, hi);
      SetsAddUp(LitStartsIn(nodes[0]), LitStarts(nodes[1..]));
    }
  }

  lemma NoStarts()
    ensures Starts([]) == multiset{}
  {}

  lemma {:induction false} LitHasStarts(start: int, end: int, body: seq<Node>, parent: string, owner: Option<Inst>)
    requires start < end && AreNested(body, start + 1, end)
    ensures Starts(LitAdds(start, end, body, parent, owner)) == multiset({start} + LitStarts(body))
    decreases body, 1
  {
    hide Starts;
    var first := Call(LitInst(parent, start, end), owner);
    BodyStarts(body, LitName(parent, start), start + 1, end);
    StartsJoined([first], BodyAdds(body, LitName(parent, start)));
    StartsOfOne(first);
    StartsLieIn(body, start + 1, end);
    SetsAddUp({start}, LitStarts(body));
  }

  lemma {:induction false} NodeStarts(n: Node, parent: string)
    requires IsNested(n)
    ensures Starts(NodeAdds(n, parent)) == multiset(LitStartsIn(n))
    decreases n, 0
  {
    hide Starts;
    match n
    case FuncLit(start, end, body) => LitHasStarts(start, end, body, parent, None);
    case Member(start, end, name, children) =>
      var first := Call(Inst(MemberKind, name, start, end), None);
      BodyStarts(children, parent, start + 1, end);
      StartsJoined([first], BodyAdds(children, parent));
      StartsOfOne(first);
    case Other(start, end, children) => BodyStarts(children, parent, start, end);
  }

  // ------------------------------------------------------------------
  // Initialisers: claimed first, the rest in the walk over everything

  lemma {:induction false} ClaimedHaveStarts(nodes: seq<Node>, owner: Inst, lo: int, hi: int)
    requires AreNested(nodes, lo, hi)
    ensures Starts(ClaimedAdds(nodes, owner)) == multiset(LitStarts(nodes))
    decreases nodes
  {
    hide Starts;
    if |nodes| == 0 {
      NoStarts();
    } else {
      match nodes[0] {
        case FuncLit(start, end, body) => LitHasStarts(start, end, body, owner.name, Some(owner));
        case Member(start, end, _, children) => ClaimedHaveStarts(children, owner, start + 1, end);
        case Other(start, end, children) => ClaimedHaveStarts(children, owner, start, end);
      }
      ClaimedHaveStarts(nodes[1..], owner, nodes[0].end, hi);
      StartsJoined(ClaimedIn(nodes[0], owner), ClaimedAdds(nodes[1..], owner));
      SiblingsDiffer(nodes, lo, hi);
      SetsAddUp(LitStartsIn(nodes[0]), LitStarts(nodes[1..]));
    }
  }

  lemma ClaimedHaveStartsIn(n: Node, owner: Inst)
    requires IsNested(n)
    ensures Starts(ClaimedIn(n, owner)) == multiset(LitStartsIn(n))
  {
    hide Starts;
    StartsLieInNode(n);
    ClaimedHaveStarts([n], owner, n.start, n.end);
    assert [n][1..] == [] && ClaimedIn(n, owner) + [] == ClaimedIn(n, owner);
    assert ClaimedAdds([n], owner) == ClaimedIn(n, owner);
    assert LitStarts([n]) == LitStartsIn(n);
  }

  /** A node whose literals have all been claimed, or none. */
  predicate IsSettled(n: Node, done: set<int>) {
    LitStartsIn(n) <= done || LitStartsIn(n) !! done
  }

  lemma SettledChildren(n: Node, children: seq<Node>, done: set<int>)
    requires LitStarts(children) <= done || LitStarts(children) !! done
    ensures forall i | 0 <= i < |children| :: IsSettled(children[i], done)
  {
    forall i | 0 <= i < |children| ensures LitStartsIn(children[i]) <= LitStarts(children) {
      ChildStarts(children, i);
    }
  }

  lemma {:induction false} ChildStarts(nodes: seq<Node>, i: nat)
    requires i < |nodes|
    ensures LitStartsIn(nodes[i]) <= LitStarts(nodes)
    decreases |nodes|
  {
    if i > 0 {
      ChildStarts(nodes[1..], i - 1);
    }
  }

  lemma {:induction false} LooseHaveStarts(nodes: seq<Node>, pkg: string, done: set<int>, lo: int, hi: int)
    requires AreNested(nodes, lo, hi) && forall i | 0 <= i < |nodes| :: IsSettled(nodes[i], done)
    ensures Starts(LooseAdds(nodes, pkg, done)) == multiset(LitStarts(nodes) - done)
    decreases nodes, 0
  {
    hide Starts, IsSettled;
    if |nodes| == 0 {
      NoStarts();
    } else {
      LooseNodeHasStarts(nodes[0], pkg, done);
      LooseHaveStarts(nodes[1..], pkg, done, nodes[0].end, hi);
      StartsJoined(LooseIn(nodes[0], pkg, done), LooseAdds(nodes[1..], pkg, done));
      SiblingsDiffer(nodes, lo, hi);
      SetsAddUp(LitStartsIn(nodes[0]) - done, LitStarts(nodes[1..]) - done);
      assert LitStarts(nodes) - done == (LitStartsIn(nodes[0]) - done) + (LitStarts(nodes[1..]) - done);
    }
  }

  lemma {:induction false} LooseNodeHasStarts(n: Node, pkg: string, done: set<int>)
    requires IsNested(n) && IsSettled(n, done)
    ensures Starts(LooseIn(n, pkg, done)) == multiset(LitStartsIn(n) - done)
    decreases n, 0
  {
    hide Starts;
    match n
    case FuncLit(start, end, body) =>
      NoStarts();
      assert start in LitStartsIn(n);
      if start in done {
        assert LitStartsIn(n) - done == {};
      } else {
        LitHasStarts(start, end, body, pkg, None);
        assert LitStartsIn(n) - done == {start} + LitStarts(body);
      }
    case Member(start, end, name, children) =>
      var first := Call(Inst(MemberKind, name, start, end), None);
      SettledChildren(n, children, done);
      LooseHaveStarts(children, pkg, done, start + 1, end);
      StartsJoined([first], LooseAdds(children, pkg, done));
      StartsOfOne(first);
    case Other(start, end, children) =>
      SettledChildren(n, children, done);
      LooseHaveStarts(children, pkg, done, start, end);
  }

  // ------------------------------------------------------------------
  // Specs

  function NodesOf(spec: Spec): (nodes: seq<Node>)
    ensures |nodes| == |spec.annotation| + |spec.values|
    ensures forall i | 0 <= i < |spec.values| :: nodes[|spec.annotation| + i] == spec.values[i]
  {
    spec.annotation + spec.values
  }

  lemma {:induction false} SiblingLies(nodes: seq<Node>, lo: int, hi: int, i: nat)
    requires AreNested(nodes, lo, hi) && i < |nodes|
    ensures IsNested(nodes[i]) && lo <= nodes[i].start <= nodes[i].end <= hi
    decreases i
  {
    StartsLieInNode(nodes[0]);
    StartsLieIn(nodes[1..], nodes[0].end, hi);
    if i > 0 {
      SiblingLies(nodes[1..], nodes[0].end, hi, i - 1);
    }
  }

  lemma {:induction false} SiblingOrder(nodes: seq<Node>, lo: int, hi: int, i: nat, j: nat)
    requires AreNested(nodes, lo, hi) && i < j < |nodes|
    ensures nodes[i].end <= nodes[j].start
    decreases i
  {
    if i > 0 {
      SiblingOrder(nodes[1..], nodes[0].end, hi, i - 1, j - 1);
    } else {
      SiblingLies(nodes[1..], nodes[0].end, hi, j - 1);
    }
  }

  /** Value `i` belongs to a declared name that has it to itself. */
  predicate IsClaimed(spec: Spec, i: int) {
    0 <= i < |spec.names| && IsPaired(spec) && spec.names[i].isDeclared
  }

  function NamesEnd(spec: Spec): int
    requires |spec.names| > 0
  {
    spec.names[|spec.names| - 1].end
  }

  lemma OneNode(n: Node)
    ensures LitStarts([n]) == LitStartsIn(n)
  {}

  lemma {:induction false} ClaimedStartsAre(spec: Spec, k: nat, v: int)
    requires k <= |spec.names|
    ensures v in ClaimedStarts(spec, k)
            <==> exists i :: 0 <= i < k && IsClaimed(spec, i) && v in LitStartsIn(spec.values[i])
  {
    if k > 0 {
      ClaimedStartsAre(spec, k - 1, v);
      if IsPaired(spec) {
        OneNode(spec.values[k - 1]);
      }
    }
  }

  lemma ValueFacts(spec: Spec, i: nat)
    requires SpecNested(spec) && i < |spec.values|
    ensures IsNested(spec.values[i]) && NamesEnd(spec) <= spec.values[i].start <= spec.values[i].end <= spec.end
    ensures AreNested([spec.values[i]], spec.values[i].start, spec.values[i].end)
  {
    assert NodesOf(spec)[|spec.annotation| + i] == spec.values[i];
    SiblingLies(NodesOf(spec), NamesEnd(spec), spec.end, |spec.annotation| + i);
    StartsLieInNode(spec.values[i]);
  }

  /** Literals of another node start elsewhere. */
  lemma NodesDiffer(spec: Spec, m: nat, i: nat)
    requires SpecNested(spec) && m < |NodesOf(spec)| && i < |spec.values| && m != |spec.annotation| + i
    ensures LitStartsIn(NodesOf(spec)[m]) !! LitStartsIn(spec.values[i])
  {
    var nodes, v := NodesOf(spec), |spec.annotation| + i;
    SiblingLies(nodes, NamesEnd(spec), spec.end, m);
    SiblingLies(nodes, NamesEnd(spec), spec.end, v);
    if m < v {
      SiblingOrder(nodes, NamesEnd(spec), spec.end, m, v);
    } else {
      SiblingOrder(nodes, NamesEnd(spec), spec.end, v, m);
    }
    StartsLieInNode(nodes[m]);
    StartsLieInNode(nodes[v]);
  }

  lemma {:induction false} NamesHaveStarts(spec: Spec, k: nat)
    requires SpecNested(spec) && k <= |spec.names|
    ensures Starts(NamesAdds(spec, k)) == multiset(ClaimedStarts(spec, k))
  {
    hide Starts, SpecNested;
    if k == 0 {
      NoStarts();
    } else {
      var before, name := NamesAdds(spec, k - 1), spec.names[k - 1];
      NamesHaveStarts(spec, k - 1);
      if name.isDeclared {
        var first := Call(NameInst(spec, name), None);
        StartsJoined(before, [first]);
        StartsOfOne(first);
        if IsPaired(spec) {
          ValueFacts(spec, k - 1);
          ClaimedHaveStarts([spec.values[k - 1]], NameInst(spec, name), spec.values[k - 1].start,
                            spec.values[k - 1].end);
          StartsJoined(before + [first], ClaimedAdds([spec.values[k - 1]], NameInst(spec, name)));
          LaterClaimsDiffer(spec, k - 1);
          SetsAddUp(ClaimedStarts(spec, k - 1), LitStarts([spec.values[k - 1]]));
        } else {
          assert before + [first] + [] == before + [first];
        }
      }
    }
  }

  lemma LaterClaimsDiffer(spec: Spec, k: nat)
    requires SpecNested(spec) && k < |spec.names| && IsPaired(spec)
    ensures ClaimedStarts(spec, k) !! LitStarts([spec.values[k]])
  {
    hide SpecNested, LitStartsIn, LitStarts, ClaimedStarts;
    OneNode(spec.values[k]);
    ValueFacts(spec, k);
    StartsLieInNode(spec.values[k]);
    forall v | v in ClaimedStarts(spec, k) ensures v < spec.values[k].start {
      ClaimedStartsAre(spec, k, v);
      var i :| 0 <= i < k && IsClaimed(spec, i) && v in LitStartsIn(spec.values[i]);
      EarlierValueStarts(spec, i, k, v);
    }
    BelowAbove(ClaimedStarts(spec, k), LitStarts([spec.values[k]]), spec.values[k].start);
  }

  lemma EarlierValueStarts(spec: Spec, i: nat, k: nat, v: int)
    requires SpecNested(spec) && i < k < |spec.values| && v in LitStartsIn(spec.values[i])
    ensures v < spec.values[k].start
  {
    ValueFacts(spec, i);
    StartsLieInNode(spec.values[i]);
    SiblingOrder(NodesOf(spec), NamesEnd(spec), spec.end, |spec.annotation| + i, |spec.annotation| + k);
  }

  /** As far as this spec goes, `done` are the literals its own names have claimed. */
  ghost predicate DoneFits(spec: Spec, done: set<int>) {
    done * LitStarts(NodesOf(spec)) == ClaimedStarts(spec, |spec.names|)
  }

  lemma NodeIsSettled(spec: Spec, done: set<int>, m: nat)
    requires SpecNested(spec) && DoneFits(spec, done) && m < |NodesOf(spec)|
    ensures IsSettled(NodesOf(spec)[m], done)
    ensures m >= |spec.annotation| && IsClaimed(spec, m - |spec.annotation|) ==> LitStartsIn(NodesOf(spec)[m]) <= done
    ensures m < |spec.annotation| || !IsClaimed(spec, m - |spec.annotation|) ==> LitStartsIn(NodesOf(spec)[m]) !! done
  {
    hide SpecNested, LitStartsIn, LitStarts, ClaimedStarts;
    var n, at := NodesOf(spec)[m], m - |spec.annotation|;
    ChildStarts(NodesOf(spec), m);
    forall v | v in LitStartsIn(n) ensures v in done <==> at >= 0 && IsClaimed(spec, at) {
      ClaimedStartsAre(spec, |spec.names|, v);
      if i :| 0 <= i < |spec.names| && IsClaimed(spec, i) && v in LitStartsIn(spec.values[i]) && i != at {
        NodesDiffer(spec, m, i);
      }
      if at >= 0 && IsClaimed(spec, at) {
        assert n == spec.values[at];
      }
    }
  }

  /** All literals under a list of specs. */
  function SpecsLits(specs: seq<Spec>): set<int> {
    if |specs| == 0 then {} else LitStarts(NodesOf(specs[0])) + SpecsLits(specs[1..])
  }

  lemma SpecLies(spec: Spec)
    requires SpecNested(spec)
    ensures forall v | v in LitStarts(NodesOf(spec)) :: spec.start <= v < spec.end
    ensures spec.start <= NamesEnd(spec) <= spec.end
    ensures ClaimedStarts(spec, |spec.names|) <= LitStarts(NodesOf(spec))
  {
    StartsLieIn(NodesOf(spec), NamesEnd(spec), spec.end);
    NamesLie(spec.names, spec.start, NamesEnd(spec));
    forall v | v in ClaimedStarts(spec, |spec.names|) ensures v in LitStarts(NodesOf(spec)) {
      ClaimedStartsAre(spec, |spec.names|, v);
      var i :| 0 <= i < |spec.names| && IsClaimed(spec, i) && v in LitStartsIn(spec.values[i]);
      ChildStarts(NodesOf(spec), |spec.annotation| + i);
    }
  }

  lemma {:induction false} NamesLie(names: seq<Name>, lo: int, hi: int)
    requires NamesNested(names, lo, hi)
    ensures lo <= hi && forall i | 0 <= i < |names| :: lo <= names[i].start < names[i].end <= hi
    decreases |names|
  {
    if |names| > 0 {
      NamesLie(names[1..], names[0].end, hi);
    }
  }

  lemma {:induction false} SpecsLie(specs: seq<Spec>, lo: int, hi: int)
    requires SpecsNested(specs, lo, hi)
    ensures lo <= hi && SpecsStarts(specs) <= SpecsLits(specs)
    ensures forall v | v in SpecsLits(specs) :: lo <= v < hi
    decreases |specs|
  {
    if |specs| > 0 {
      SpecLies(specs[0]);
      SpecsLie(specs[1..], specs[0].end, hi);
    }
  }

  lemma {:induction false} DoneFitsAll(specs: seq<Spec>, lo: int, hi: int, j: nat)
    requires SpecsNested(specs, lo, hi) && j < |specs|
    ensures DoneFits(specs[j], SpecsStarts(specs)) && SpecNested(specs[j])
    ensures lo <= specs[j].start && specs[j].end <= hi
    decreases |specs|
  {
    hide SpecNested, LitStarts, ClaimedStarts, NodesOf;
    SpecLies(specs[0]);
    SpecsLie(specs[1..], specs[0].end, hi);
    var claimed, rest := ClaimedStarts(specs[0], |specs[0].names|), SpecsStarts(specs[1..]);
    assert SpecsStarts(specs) == claimed + rest;
    if j > 0 {
      DoneFitsAll(specs[1..], specs[0].end, hi, j - 1);
      SpecLies(specs[j]);
      BelowAbove(claimed, LitStarts(NodesOf(specs[j])), specs[0].end);
      assert (claimed + rest) * LitStarts(NodesOf(specs[j])) == rest * LitStarts(NodesOf(specs[j]));
    } else {
      BelowAbove(LitStarts(NodesOf(specs[0])), rest, specs[0].end);
      assert (claimed + rest) * LitStarts(NodesOf(specs[0])) == claimed;
    }
  }

  lemma {:induction false} SpecsHaveStarts(specs: seq<Spec>, lo: int, hi: int)
    requires SpecsNested(specs, lo, hi)
    ensures Starts(SpecsAdds(specs)) == multiset(SpecsStarts(specs))
    decreases |specs|
  {
    hide Starts, SpecNested;
    if |specs| == 0 {
      NoStarts();
    } else {
      NamesHaveStarts(specs[0], |specs[0].names|);
      SpecsHaveStarts(specs[1..], specs[0].end, hi);
      StartsJoined(NamesAdds(specs[0], |specs[0].names|), SpecsAdds(specs[1..]));
      SpecLies(specs[0]);
      SpecsLie(specs[1..], specs[0].end, hi);
      BelowAbove(LitStarts(NodesOf(specs[0])), SpecsLits(specs[1..]), specs[0].end);
      SetsAddUp(ClaimedStarts(specs[0], |specs[0].names|), SpecsStarts(specs[1..]));
    }
  }

  lemma {:induction false} SpecsLooseHaveStarts(specs: seq<Spec>, pkg: string, done: set<int>, lo: int, hi: int)
    requires SpecsNested(specs, lo, hi) && forall j | 0 <= j < |specs| :: DoneFits(specs[j], done)
    ensures Starts(SpecsLoose(specs, pkg, done)) == multiset(SpecsLits(specs) - done)
    decreases |specs|
  {
    hide Starts, SpecNested, DoneFits;
    if |specs| == 0 {
      NoStarts();
    } else {
      var spec := specs[0];
      SpecLooseHasStarts(spec, pkg, done);
      SpecsLooseHaveStarts(specs[1..], pkg, done, spec.end, hi);
      StartsJoined(LooseAdds(NodesOf(spec), pkg, done), SpecsLoose(specs[1..], pkg, done));
      SpecLies(spec);
      SpecsLie(specs[1..], spec.end, hi);
      BelowAbove(LitStarts(NodesOf(spec)), SpecsLits(specs[1..]), spec.end);
      SetsAddUp(LitStarts(NodesOf(spec)) - done, SpecsLits(specs[1..]) - done);
      assert SpecsLits(specs) - done == (LitStarts(NodesOf(spec)) - done) + (SpecsLits(specs[1..]) - done);
    }
  }

  lemma SpecLooseHasStarts(spec: Spec, pkg: string, done: set<int>)
    requires SpecNested(spec) && DoneFits(spec, done)
    ensures Starts(LooseAdds(NodesOf(spec), pkg, done)) == multiset(LitStarts(NodesOf(spec)) - done)
  {
    hide Starts, DoneFits, IsSettled;
    forall m | 0 <= m < |NodesOf(spec)| ensures IsSettled(NodesOf(spec)[m], done) {
      NodeIsSettled(spec, done, m);
    }
    LooseHaveStarts(NodesOf(spec), pkg, done, NamesEnd(spec), spec.end);
  }

  // ------------------------------------------------------------------
  // The file

  /** All literals of a declaration. */
  function DeclLits(d: Decl): set<int> {
    match d
    case FuncDecl(_, _, _, body) => LitStarts(body)
    case ValueDecl(_, _, specs) => SpecsLits(specs)
    case Loose(node) => LitStartsIn(node)
  }

  /** All literals of a file. */
  function FileLits(decls: seq<Decl>): set<int> {
    if |decls| == 0 then {} else DeclLits(decls[0]) + FileLits(decls[1..])
  }

  lemma DeclLies(d: Decl)
    requires DeclNested(d)
    ensures DeclStart(d) <= DeclEnd(d) && forall v | v in DeclLits(d) :: DeclStart(d) <= v < DeclEnd(d)
  {
    match d
    case FuncDecl(start, end, _, body) => StartsLieIn(body, start + 1, end);
    case ValueDecl(start, end, specs) => SpecsLie(specs, start, end);
    case Loose(node) => StartsLieInNode(node);
  }

  lemma {:induction false} FileLies(decls: seq<Decl>, lo: int, hi: int)
    requires FileNested(decls, lo, hi)
    ensures lo <= hi && forall v | v in FileLits(decls) :: lo <= v < hi
    decreases |decls|
  {
    if |decls| > 0 {
      DeclLies(decls[0]);
      FileLies(decls[1..], DeclEnd(decls[0]), hi);
    }
  }

  lemma DeclHasStarts(d: Decl, pkg: string)
    requires DeclNested(d)
    ensures Starts(DeclAdds(d, pkg)) == multiset(DeclLits(d))
  {
    hide Starts, SpecsNested;
    match d
    case FuncDecl(start, end, fullName, body) =>
      var first := Call(Inst(Declared, fullName, start, end), None);
      BodyStarts(body, fullName, start + 1, end);
      StartsJoined([first], BodyAdds(body, fullName));
      StartsOfOne(first);
    case ValueDecl(start, end, specs) =>
      var done := SpecsStarts(specs);
      SpecsHaveStarts(specs, start, end);
      forall j | 0 <= j < |specs| ensures DoneFits(specs[j], done) {
        DoneFitsAll(specs, start, end, j);
      }
      SpecsLooseHaveStarts(specs, pkg, done, start, end);
      StartsJoined(SpecsAdds(specs), SpecsLoose(specs, pkg, done));
      SpecsLie(specs, start, end);
      SetsAddUp(done, SpecsLits(specs) - done);
      assert SpecsLits(specs) == done + (SpecsLits(specs) - done);
    case Loose(node) =>
      LooseNodeHasStarts(node, pkg, {});
      assert LitStartsIn(node) - {} == LitStartsIn(node);
  }

  /** Every function literal of the file is added once, wherever it stands. */
  lemma {:induction false} EachLiteralIsAddedOnce(decls: seq<Decl>, pkg: string, lo: int, hi: int)
    requires FileNested(decls, lo, hi)
    ensures Starts(FileAdds(decls, pkg)) == multiset(FileLits(decls))
    decreases |decls|
  {
    hide Starts, DeclNested;
    if |decls| == 0 {
      NoStarts();
    } else {
      DeclHasStarts(decls[0], pkg);
      EachLiteralIsAddedOnce(decls[1..], pkg, DeclEnd(decls[0]), hi);
      StartsJoined(DeclAdds(decls[0], pkg), FileAdds(decls[1..], pkg));
      DeclLies(decls[0]);
      FileLies(decls[1..], DeclEnd(decls[0]), hi);
      BelowAbove(DeclLits(decls[0]), FileLits(decls[1..]), DeclEnd(decls[0]));
      SetsAddUp(DeclLits(decls[0]), FileLits(decls[1..]));
    }
  }
}
